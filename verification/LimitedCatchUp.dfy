/** Which senders a receiver catches up with under a given item limit. */
module LimitedCatchUp {
  import opened Items
  import opened VersionOrder
  import opened SummaryStore
  import opened ItemOrder
  import opened Watermarks
  import opened Pull
  import opened CatchUp
  import opened BoundedCatchUp
  import Gossip

  ghost predicate CatchesUpFrom(r: Store, s: Store, now: Time, limit: nat)
    requires Keyed(r) && Keyed(s)
  {
    exists n: nat :: Live(PullTimesWith(r, s, DiffOptions(now, limit), n), now) == Live(s, now)
  }

  /** Not among the first limit items of its cell. */
  predicate Late(xs: seq<Item>, j: nat, limit: nat) {
    limit <= j < |xs| && xs[j - limit].Cell() == xs[j].Cell()
  }

  /** Within each cell, every item but the first limit is newer than all before it. */
  ghost predicate LateAscends(xs: seq<Item>, limit: nat) {
    forall i, j :: 0 <= i < j < |xs| && Late(xs, j, limit) && xs[i].Cell() == xs[j].Cell() ==> Newer(xs[j], xs[i])
  }

  predicate Has(m: Store, x: Item) {
    x.SummaryKey() in m && m[x.SummaryKey()] == x
  }

  // ---- Listings ----

  lemma CellsAreContiguous(xs: seq<Item>, i: nat, j: nat, k: nat)
    requires Ascending(xs) && i <= j <= k < |xs| && xs[i].Cell() == xs[k].Cell()
    ensures xs[j].Cell() == xs[i].Cell()
  {
    if i < j < k {
      var a, b := xs[i].SummaryKey(), xs[j].SummaryKey();
      var c := xs[k].SummaryKey();
      assert KeyLess(a, b) && KeyLess(b, c);
      if a.cell != b.cell { CellLessTotal(a.cell, b.cell); }
    }
  }

  /** What is listed before an item of a longer listing is listed before it there. */
  lemma {:induction false} RankAtLeast(xs: seq<Item>, ys: seq<Item>, start: nat, t: nat, q: nat)
    requires Ascending(xs) && Ascending(ys) && start + t < |xs| && q < |ys|
    requires forall u :: start <= u <= start + t ==> xs[u] in ys
    requires ys[q] == xs[start + t]
    ensures q >= t
  {
    hide KeyLess;
    if t > 0 {
      var q' :| 0 <= q' < |ys| && ys[q'] == xs[start + t - 1];
      RankAtLeast(xs, ys, start, t - 1, q');
      var a, b := xs[start + t - 1].SummaryKey(), xs[start + t].SummaryKey();
      assert KeyLess(a, b);
      KeyLessTotal(a, b);
      KeyLessTotal(b, b);
    }
  }

  /** The items of one listing that are in another keep their distance. */
  lemma {:induction false} RankAtMost(xs: seq<Item>, ys: seq<Item>, j: nat, q: nat) returns (i: nat)
    requires Ascending(xs) && Ascending(ys) && j < |xs| && q < |ys| && ys[q] == xs[j]
    requires forall y :: y in ys ==> y in xs
    ensures i + q <= j && xs[i] == ys[0]
    decreases q
  {
    hide KeyLess;
    if q == 0 {
      i := j;
    } else {
      assert ys[q - 1] in ys;
      var h :| 0 <= h < |xs| && xs[h] == ys[q - 1];
      assert KeyLess(ys[q - 1].SummaryKey(), ys[q].SummaryKey());
      KeyLessTotal(xs[h].SummaryKey(), xs[j].SummaryKey());
      KeyLessTotal(xs[j].SummaryKey(), xs[j].SummaryKey());
      i := RankAtMost(xs, ys, h, q - 1);
    }
  }

  // ---- What is late and not newer is never sent ----

  lemma SentIsListed(r: Store, s: Store, now: Time, universe: set<Item>, limit: nat)
    requires Paired(r, s, universe) && limit > 0
    ensures Keyed(Live(r, now)) && Keyed(Chosen(r, s, now))
    ensures var ys := Listing(Chosen(r, s, now));
            DiffOf(s, Marks(Live(r, now)), DiffOptions(now, limit)).items == ys[..Min(limit, |ys|)]
    ensures forall y :: y in Listing(Chosen(r, s, now)) ==> y in Agenda(s, now)
    ensures forall j :: 0 <= j < |Agenda(s, now)| ==>
      (Agenda(s, now)[j] in Listing(Chosen(r, s, now)) <==> Agenda(s, now)[j].SummaryKey() in Chosen(r, s, now))
  {
    hide Item.Admissible, NewerThan, KeyLess, IsLive, Traceable, Agenda, Selection, Marks;
    LiveIsKeyed(r, now, universe);
    LiveIsKeyed(s, now, universe);
    ChosenWithin(r, s, now);
    var d := Chosen(r, s, now);
    forall y | y in Listing(d) ensures y in Agenda(s, now) {
      var i := AgendaIndex(s, now, y.SummaryKey());
    }
    forall j | 0 <= j < |Agenda(s, now)| && Agenda(s, now)[j].SummaryKey() in d
      ensures Agenda(s, now)[j] in Listing(d)
    {
      AgendaItem(s, now, j);
    }
  }

  /** What decides whether an item of the agenda is selected. */
  lemma SelectedWhen(r: Store, s: Store, now: Time, universe: set<Item>, j: nat)
    requires Paired(r, s, universe) && j < |Agenda(s, now)|
    ensures var x := Agenda(s, now)[j];
            var a, b := LiveCell(s, now, x.Cell()), LiveCell(r, now, x.Cell());
            && a != map[]
            && (x.SummaryKey() in Chosen(r, s, now) <==> Sends(a, b, x))
  {
    hide Item.Admissible, NewerThan, KeyLess, IsLive, Traceable, Agenda, Selection, Marks, Sends, Top;
    LiveIsKeyed(r, now, universe);
    LiveIsKeyed(s, now, universe);
    AgendaItem(s, now, j);
    SelectionAt(Live(s, now), Live(r, now), universe, Agenda(s, now)[j].SummaryKey());
  }

  /** A held item keeps its cell's watermark at least as new. */
  lemma HeldIsBelowTop(r: Store, s: Store, now: Time, universe: set<Item>, e: nat)
    requires Paired(r, s, universe) && e < |Agenda(s, now)| && Has(r, Agenda(s, now)[e])
    ensures var x := Agenda(s, now)[e];
            var b := LiveCell(r, now, x.Cell());
            b != map[] && x.SummaryKey() in b && b[x.SummaryKey()] == x && !Newer(x, Top(b))
  {
    hide Item.Admissible, NewerThan, KeyLess, IsLive, Traceable, Agenda, Top;
    AgendaItem(s, now, e);
    EntryInCell(r, now, Agenda(s, now)[e].SummaryKey());
  }

  lemma SelectedFromTheStart(r: Store, s: Store, now: Time, universe: set<Item>, e: nat, f: nat, g: nat)
    requires Paired(r, s, universe) && e < |Agenda(s, now)| && f < |Agenda(s, now)| && g < |Agenda(s, now)|
    requires Agenda(s, now)[e].Cell() == Agenda(s, now)[f].Cell() == Agenda(s, now)[g].Cell()
    requires Has(r, Agenda(s, now)[e]) && !Newer(Agenda(s, now)[f], Agenda(s, now)[e])
    requires Agenda(s, now)[f].SummaryKey() in Chosen(r, s, now)
    ensures Agenda(s, now)[g].SummaryKey() in Chosen(r, s, now)
  {
    hide Item.Admissible, NewerThan, KeyLess, IsLive, Traceable, Agenda, Top, Chosen, LiveCell, Keyed, Drawn;
    SelectedWhen(r, s, now, universe, f);
    SelectedWhen(r, s, now, universe, g);
    HeldIsBelowTop(r, s, now, universe, e);
    var x, y := Agenda(s, now)[e], Agenda(s, now)[f];
    NotNewerTransitive(VersionOf(y), VersionOf(x), VersionOf(Top(LiveCell(r, now, x.Cell()))));
  }

  /** An item beyond the first limit of its cell, no newer than one already held, is
      selected only together with the whole cell, and then cut off. */
  lemma NotSent(r: Store, s: Store, now: Time, universe: set<Item>, e: nat, f: nat, limit: nat)
    requires Paired(r, s, universe) && limit > 0 && e < f < |Agenda(s, now)|
    requires Agenda(s, now)[e].Cell() == Agenda(s, now)[f].Cell() && Late(Agenda(s, now), f, limit)
    requires Has(r, Agenda(s, now)[e]) && !Newer(Agenda(s, now)[f], Agenda(s, now)[e])
    ensures Keyed(Live(r, now))
    ensures Agenda(s, now)[f] !in DiffOf(s, Marks(Live(r, now)), DiffOptions(now, limit)).items
  {
    hide Item.Admissible, NewerThan, KeyLess, IsLive, Traceable, Agenda, Top, Chosen, LiveCell, Keyed, Drawn, Marks,
         DiffOf;
    SentIsListed(r, s, now, universe, limit);
    var xs, ys := Agenda(s, now), Listing(Chosen(r, s, now));
    if xs[f] in ys[..Min(limit, |ys|)] {
      var q :| 0 <= q < Min(limit, |ys|) && ys[q] == xs[f];
      assert xs[f] in ys;
      forall u | f - limit <= u <= f - limit + limit ensures xs[u] in ys {
        CellsAreContiguous(xs, f - limit, u, f);
        SelectedFromTheStart(r, s, now, universe, e, f, u);
      }
      RankAtLeast(xs, ys, f - limit, limit, q);
    }
  }

  // ---- What a pull does to the agenda ----

  /** The receiver's live items are the sender's, and its expired entries are older. */
  ghost predicate Tame(r: Store, s: Store, now: Time) {
    && (forall k :: k in Live(r, now) ==> k in Live(s, now) && r[k] == s[k])
    && (forall k :: k in Live(s, now) && k in r ==> r[k] == s[k] || Newer(s[k], r[k]))
  }

  /** The diff moves entries only to the sender's live items. */
  lemma PulledMoves(r: Store, s: Store, now: Time, universe: set<Item>, limit: nat)
    requires Paired(r, s, universe) && limit > 0
    ensures Keyed(Live(r, now))
    ensures var m := PullOf(r, s, DiffOptions(now, limit));
            var items := DiffOf(s, Marks(Live(r, now)), DiffOptions(now, limit)).items;
            && Paired(m, s, universe) && Advances(r, m) && Covers(m, items)
            && forall k :: k in m && !(k in r && m[k] == r[k]) ==> k in Live(s, now) && m[k] == s[k] && m[k] in items
  {
    hide Item.Admissible, NewerThan, KeyLess, IsLive, Traceable, Marks, Selection, DiffOf;
    LiveIsKeyed(r, now, universe);
    var items := DiffOf(s, Marks(Live(r, now)), DiffOptions(now, limit)).items;
    PutAllNewest(r, items);
    DiffIsDrawn(s, Marks(Live(r, now)), DiffOptions(now, limit), universe);
    SentAreLive(s, now, Marks(Live(r, now)), limit);
  }

  lemma TameMoves(r: Store, m: Store, s: Store, now: Time)
    requires Tame(r, s, now)
    requires forall k :: k in m && !(k in r && m[k] == r[k]) ==> k in Live(s, now) && m[k] == s[k]
    ensures Tame(m, s, now)
  {
    hide IsLive, NewerThan;
  }

  lemma PulledHas(r: Store, s: Store, now: Time, universe: set<Item>, limit: nat)
    requires Paired(r, s, universe) && Tame(r, s, now) && limit > 0
    ensures var m := PullOf(r, s, DiffOptions(now, limit));
            && Paired(m, s, universe) && Tame(m, s, now)
            && Keyed(Live(r, now))
            && var items := DiffOf(s, Marks(Live(r, now)), DiffOptions(now, limit)).items;
               forall x :: x in Agenda(s, now) ==> (Has(m, x) <==> Has(r, x) || x in items)
  {
    hide Item.Admissible, NewerThan, KeyLess, IsLive, Traceable, Marks, Agenda, DiffOf, PullOf, Tame, Advances,
         Covers, Has;
    PulledMoves(r, s, now, universe, limit);
    var items := DiffOf(s, Marks(Live(r, now)), DiffOptions(now, limit)).items;
    var m := PullOf(r, s, DiffOptions(now, limit));
    TameMoves(r, m, s, now);
    forall x | x in Agenda(s, now) ensures Has(m, x) <==> Has(r, x) || x in items {
      var i :| 0 <= i < |Agenda(s, now)| && Agenda(s, now)[i] == x;
      AgendaItem(s, now, i);
      KeptOrSent(r, m, s, now, items, x);
    }
  }

  lemma KeptOrSent(r: Store, m: Store, s: Store, now: Time, items: seq<Item>, x: Item)
    requires Tame(r, s, now) && x.SummaryKey() in Live(s, now) && s[x.SummaryKey()] == x
    requires Advances(r, m) && Covers(m, items) && x.Admissible()
    requires forall k :: k in m && !(k in r && m[k] == r[k]) ==> k in Live(s, now) && m[k] == s[k] && m[k] in items
    ensures Has(m, x) <==> Has(r, x) || x in items
  {
    hide Item.Admissible, NewerThan, IsLive;
    var k := x.SummaryKey();
    NewerAsymmetric(VersionOf(x), VersionOf(x));
  }

  lemma SentAreLive(s: Store, now: Time, view: map<CellID, CellWatermark>, limit: nat)
    requires Keyed(s)
    ensures forall x :: x in DiffOf(s, view, DiffOptions(now, limit)).items ==>
      x.SummaryKey() in Live(s, now) && s[x.SummaryKey()] == x
  {
    hide Item.Admissible, KeyLess, IsLive, Wanted, Marks;
    var d := Selection(Live(s, now), view);
    forall x | x in DiffOf(s, view, DiffOptions(now, limit)).items
      ensures x.SummaryKey() in Live(s, now) && s[x.SummaryKey()] == x
    {
      assert x in Listing(d);
    }
  }

  /** Held once, and lacking the other: so it stays under any number of pulls. */
  lemma {:induction false} NeverDelivered(r: Store, s: Store, now: Time, universe: set<Item>,
                                          e: nat, f: nat, limit: nat, n: nat)
    requires Paired(r, s, universe) && Tame(r, s, now) && limit > 0 && e < f < |Agenda(s, now)|
    requires Agenda(s, now)[e].Cell() == Agenda(s, now)[f].Cell() && Late(Agenda(s, now), f, limit)
    requires !Newer(Agenda(s, now)[f], Agenda(s, now)[e])
    requires Has(r, Agenda(s, now)[e]) && !Has(r, Agenda(s, now)[f])
    ensures var m := PullTimesWith(r, s, DiffOptions(now, limit), n);
            && Paired(m, s, universe) && Tame(m, s, now)
            && Has(m, Agenda(s, now)[e]) && !Has(m, Agenda(s, now)[f])
            && Live(m, now) != Live(s, now)
  {
    hide Item.Admissible, NewerThan, KeyLess, IsLive, Traceable, Marks, Agenda, DiffOf, Keyed, Drawn, Tame,
         PullOf, Late, Live;
    if n > 0 {
      var m := PullTimesWith(r, s, DiffOptions(now, limit), n - 1);
      NeverDelivered(r, s, now, universe, e, f, limit, n - 1);
      NotSent(m, s, now, universe, e, f, limit);
      PulledHas(m, s, now, universe, limit);
    }
    LackingIsBehind(PullTimesWith(r, s, DiffOptions(now, limit), n), s, now, universe, f);
  }

  lemma LackingIsBehind(m: Store, s: Store, now: Time, universe: set<Item>, f: nat)
    requires Paired(m, s, universe) && f < |Agenda(s, now)| && !Has(m, Agenda(s, now)[f])
    ensures Live(m, now) != Live(s, now)
  {
    hide Item.Admissible, KeyLess, IsLive, Agenda, Traceable;
    AgendaItem(s, now, f);
    var k := Agenda(s, now)[f].SummaryKey();
    assert k in Live(s, now) && Live(s, now)[k] == s[k];
  }

  // ---- What is late and newer is never skipped ----

  /** Of the late items of a cell the receiver holds the first ones. */
  ghost predicate LateClosed(r: Store, xs: seq<Item>, limit: nat) {
    forall e, f :: 0 <= e < f < |xs| && Late(xs, e, limit) && xs[e].Cell() == xs[f].Cell() && Has(r, xs[f]) ==>
      Has(r, xs[e])
  }

  /** What a receiver may look like between pulls. */
  ghost predicate OnCourse(r: Store, s: Store, now: Time, universe: set<Item>, limit: nat) {
    && Paired(r, s, universe) && Tame(r, s, now) && limit > 0
    && LateAscends(Agenda(s, now), limit) && LateClosed(r, Agenda(s, now), limit)
  }

  lemma TopIndex(r: Store, s: Store, now: Time, c: CellID) returns (h: nat)
    requires Keyed(r) && Keyed(s) && Tame(r, s, now) && LiveCell(r, now, c) != map[]
    ensures h < |Agenda(s, now)| && Agenda(s, now)[h] == Top(LiveCell(r, now, c))
    ensures Agenda(s, now)[h].Cell() == c && Has(r, Agenda(s, now)[h])
  {
    hide Item.Admissible, NewerThan, KeyLess, IsLive, Agenda, Top, LiveCell;
    TopEntry(r, now, c);
    var k := Top(LiveCell(r, now, c)).SummaryKey();
    assert k in Live(r, now);
    h := AgendaIndex(s, now, k);
  }

  lemma LateUnheldIsAhead(r: Store, s: Store, now: Time, universe: set<Item>, limit: nat, e: nat)
    requires OnCourse(r, s, now, universe, limit) && e < |Agenda(s, now)| && Late(Agenda(s, now), e, limit)
    requires !Has(r, Agenda(s, now)[e]) && LiveCell(r, now, Agenda(s, now)[e].Cell()) != map[]
    ensures Newer(Agenda(s, now)[e], Top(LiveCell(r, now, Agenda(s, now)[e].Cell())))
  {
    hide Item.Admissible, NewerThan, KeyLess, IsLive, Traceable, Agenda, Top, LiveCell, Late, Tame, Has;
    var h := TopIndex(r, s, now, Agenda(s, now)[e].Cell());
  }

  lemma UnheldDiffers(r: Store, s: Store, now: Time, universe: set<Item>, j: nat)
    requires Paired(r, s, universe) && j < |Agenda(s, now)| && !Has(r, Agenda(s, now)[j])
    ensures LiveCell(s, now, Agenda(s, now)[j].Cell()) != LiveCell(r, now, Agenda(s, now)[j].Cell())
  {
    hide Item.Admissible, NewerThan, KeyLess, IsLive, Traceable, Agenda, Top;
    AgendaItem(s, now, j);
    EntryInCell(r, now, Agenda(s, now)[j].SummaryKey());
  }

  lemma LateUnheldIsChosen(r: Store, s: Store, now: Time, universe: set<Item>, limit: nat, e: nat)
    requires OnCourse(r, s, now, universe, limit) && e < |Agenda(s, now)| && Late(Agenda(s, now), e, limit)
    requires !Has(r, Agenda(s, now)[e])
    ensures Agenda(s, now)[e].SummaryKey() in Chosen(r, s, now)
  {
    hide Item.Admissible, NewerThan, KeyLess, IsLive, Traceable, Agenda, Top, LiveCell, Late, Tame, Has, Chosen,
         LateAscends, LateClosed, Keyed, Drawn;
    SelectedWhen(r, s, now, universe, e);
    UnheldDiffers(r, s, now, universe, e);
    if LiveCell(r, now, Agenda(s, now)[e].Cell()) != map[] { LateUnheldIsAhead(r, s, now, universe, limit, e); }
  }

  lemma StaysOnCourse(r: Store, s: Store, now: Time, universe: set<Item>, limit: nat)
    requires OnCourse(r, s, now, universe, limit)
    ensures OnCourse(PullOf(r, s, DiffOptions(now, limit)), s, now, universe, limit)
  {
    hide Item.Admissible, NewerThan, KeyLess, IsLive, Traceable, Agenda, Late, Tame, Chosen, LateAscends, Keyed,
         Drawn, DiffOf, Marks, PullOf, Has;
    PulledHas(r, s, now, universe, limit);
    SentIsListed(r, s, now, universe, limit);
    var xs, ys, m := Agenda(s, now), Listing(Chosen(r, s, now)), PullOf(r, s, DiffOptions(now, limit));
    forall e, f | 0 <= e < f < |xs| && Late(xs, e, limit) && xs[e].Cell() == xs[f].Cell() && Has(m, xs[f])
      ensures Has(m, xs[e])
    {
      assert xs[e] in xs && xs[f] in xs;
      if !Has(r, xs[e]) {
        LateUnheldIsChosen(r, s, now, universe, limit, e);
        EarlierIsSent(xs, ys, e, f, limit);
      }
    }
  }

  lemma EarlierIsSent(xs: seq<Item>, ys: seq<Item>, e: nat, f: nat, limit: nat)
    requires Ascending(xs) && Ascending(ys) && e < f < |xs| && xs[e] in ys
    requires xs[f] in ys[..Min(limit, |ys|)]
    ensures xs[e] in ys[..Min(limit, |ys|)]
  {
    hide KeyLess;
    var q :| 0 <= q < Min(limit, |ys|) && ys[q] == xs[f];
    var q' :| 0 <= q' < |ys| && ys[q'] == xs[e];
    KeyLessTotal(xs[e].SummaryKey(), xs[f].SummaryKey());
    KeyLessTotal(xs[e].SummaryKey(), xs[e].SummaryKey());
    assert ys[q'] in ys[..Min(limit, |ys|)];
  }

  // ---- Every pull brings something until all is held ----

  ghost predicate AllHeldBefore(r: Store, xs: seq<Item>, j: nat) {
    j <= |xs| && forall i :: 0 <= i < j ==> Has(r, xs[i])
  }

  /** The first unheld item of the agenda, or its end. */
  lemma {:induction false} FirstUnheld(r: Store, xs: seq<Item>, from: nat) returns (j: nat)
    requires AllHeldBefore(r, xs, from)
    ensures AllHeldBefore(r, xs, j) && (j < |xs| ==> !Has(r, xs[j]))
    decreases |xs| - from
  {
    if from < |xs| && Has(r, xs[from]) { j := FirstUnheld(r, xs, from + 1); } else { j := from; }
  }

  lemma FinishedCellIsQuiet(r: Store, s: Store, now: Time, universe: set<Item>, i: nat, j: nat)
    requires Paired(r, s, universe) && Tame(r, s, now) && AllHeldBefore(r, Agenda(s, now), j)
    requires i < j < |Agenda(s, now)| && Agenda(s, now)[i].Cell() != Agenda(s, now)[j].Cell()
    ensures Agenda(s, now)[i].SummaryKey() !in Chosen(r, s, now)
  {
    hide Item.Admissible, NewerThan, KeyLess, IsLive, Traceable, Agenda, Top, LiveCell, Tame, Chosen, Keyed, Drawn, Has;
    var xs := Agenda(s, now);
    var c := xs[i].Cell();
    var a, b := LiveCell(s, now, c), LiveCell(r, now, c);
    SelectedWhen(r, s, now, universe, i);
    forall k | k in a ensures k in b && b[k] == a[k] {
      CellEntry(s, now, c, k);
      var h := AgendaIndex(s, now, k);
      if h >= j { CellsAreContiguous(xs, i, j, h); }
      HeldIsBelowTop(r, s, now, universe, h);
    }
    forall k | k in b ensures k in a {
      CellEntry(r, now, c, k);
      TameEntry(r, s, now, c, k);
    }
    assert a == b;
    HeldIsBelowTop(r, s, now, universe, i);
  }

  lemma TameEntry(r: Store, s: Store, now: Time, c: CellID, k: Key)
    requires Keyed(r) && Keyed(s) && Tame(r, s, now) && k in LiveCell(r, now, c)
    ensures k in LiveCell(s, now, c)
  {
    hide Item.Admissible, IsLive;
  }

  /** What is sent of a cell that has nothing at the receiver, or is ahead there, is new. */
  lemma AheadIsNew(r: Store, s: Store, now: Time, universe: set<Item>, i: nat)
    requires Paired(r, s, universe) && i < |Agenda(s, now)| && Agenda(s, now)[i].SummaryKey() in Chosen(r, s, now)
    requires var c := Agenda(s, now)[i].Cell();
             LiveCell(r, now, c) == map[] || Ahead(r, s, now, c)
    ensures !Has(r, Agenda(s, now)[i])
  {
    hide Item.Admissible, NewerThan, KeyLess, IsLive, Traceable, Agenda, Top, LiveCell, Chosen, Keyed, Drawn;
    SelectedWhen(r, s, now, universe, i);
    if Has(r, Agenda(s, now)[i]) { HeldIsBelowTop(r, s, now, universe, i); }
  }

  lemma UnheldIsNotLate(r: Store, s: Store, now: Time, universe: set<Item>, limit: nat, j: nat)
    requires OnCourse(r, s, now, universe, limit) && j < |Agenda(s, now)| && !Has(r, Agenda(s, now)[j])
    requires var c := Agenda(s, now)[j].Cell(); LiveCell(r, now, c) != map[] && !Ahead(r, s, now, c)
    ensures !Late(Agenda(s, now), j, limit)
  {
    hide Item.Admissible, NewerThan, KeyLess, IsLive, Traceable, Agenda, Top, LiveCell, Tame, Keyed, Drawn, Has,
         LateAscends, LateClosed, Late;
    var x := Agenda(s, now)[j];
    var a, b := LiveCell(s, now, x.Cell()), LiveCell(r, now, x.Cell());
    if Late(Agenda(s, now), j, limit) {
      LateUnheldIsAhead(r, s, now, universe, limit, j);
      AgendaItem(s, now, j);
      EntryInCell(s, now, x.SummaryKey());
      NewerTransitive(VersionOf(Top(a)), VersionOf(x), VersionOf(Top(b)));
    }
  }

  /** Something of the first unfinished cell is chosen, and all of it is new, or the
      whole cell is and its first unheld item is not late. */
  lemma FirstSent(r: Store, s: Store, now: Time, universe: set<Item>, limit: nat, j: nat) returns (g: nat)
    requires OnCourse(r, s, now, universe, limit)
    requires AllHeldBefore(r, Agenda(s, now), j) && j < |Agenda(s, now)| && !Has(r, Agenda(s, now)[j])
    ensures j <= g < |Agenda(s, now)| && Agenda(s, now)[g].Cell() == Agenda(s, now)[j].Cell()
    ensures Agenda(s, now)[g].SummaryKey() in Chosen(r, s, now)
    ensures var c := Agenda(s, now)[j].Cell();
            LiveCell(r, now, c) == map[] || Ahead(r, s, now, c) || (g == j && !Late(Agenda(s, now), j, limit))
  {
    hide Item.Admissible, NewerThan, KeyLess, IsLive, Traceable, Agenda, Top, LiveCell, Tame, Keyed, Drawn, Has,
         LateAscends, LateClosed, Late, Chosen;
    var c := Agenda(s, now)[j].Cell();
    SelectedWhen(r, s, now, universe, j);
    UnheldDiffers(r, s, now, universe, j);
    if LiveCell(r, now, c) != map[] && Ahead(r, s, now, c) {
      g := AheadTopIndex(r, s, now, universe, c);
      if g < j { AheadIsNew(r, s, now, universe, g); }
    } else {
      if LiveCell(r, now, c) != map[] { UnheldIsNotLate(r, s, now, universe, limit, j); }
      g := j;
    }
  }

  lemma AheadTopIndex(r: Store, s: Store, now: Time, universe: set<Item>, c: CellID) returns (g: nat)
    requires Paired(r, s, universe) && Ahead(r, s, now, c)
    ensures g < |Agenda(s, now)| && Agenda(s, now)[g].Cell() == c
    ensures Agenda(s, now)[g].SummaryKey() in Chosen(r, s, now)
  {
    hide Item.Admissible, NewerThan, KeyLess, IsLive, Traceable, Agenda, Top, LiveCell, Keyed, Drawn, Chosen;
    TopEntry(s, now, c);
    var k := Top(LiveCell(s, now, c)).SummaryKey();
    assert k in Live(s, now);
    g := AgendaIndex(s, now, k);
    SelectedWhen(r, s, now, universe, g);
    NewerAsymmetric(VersionOf(Top(LiveCell(s, now, c))), VersionOf(Top(LiveCell(r, now, c))));
  }

  /** A receiver on course that lacks something is sent something it lacks. */
  lemma NewDelivery(r: Store, s: Store, now: Time, universe: set<Item>, limit: nat, j: nat) returns (i: nat)
    requires OnCourse(r, s, now, universe, limit)
    requires AllHeldBefore(r, Agenda(s, now), j) && j < |Agenda(s, now)| && !Has(r, Agenda(s, now)[j])
    ensures Keyed(Live(r, now)) && i < |Agenda(s, now)| && !Has(r, Agenda(s, now)[i])
    ensures Agenda(s, now)[i] in DiffOf(s, Marks(Live(r, now)), DiffOptions(now, limit)).items
  {
    hide Item.Admissible, NewerThan, KeyLess, IsLive, Traceable, Agenda, Top, LiveCell, Tame, Keyed, Drawn, Has,
         LateAscends, LateClosed, Chosen, DiffOf, Marks, Ahead, AllHeldBefore;
    SentIsListed(r, s, now, universe, limit);
    var xs, ys := Agenda(s, now), Listing(Chosen(r, s, now));
    var g := FirstSent(r, s, now, universe, limit, j);
    assert xs[g] in ys;
    var q :| 0 <= q < |ys| && ys[q] == xs[g];
    i := RankAtMost(xs, ys, g, q);
    assert ys[0] in ys;
    if i < j { ChosenBeforeIsSameCell(r, s, now, universe, i, j); }
    if i >= j { CellsAreContiguous(xs, j, i, g); }
    if LiveCell(r, now, xs[j].Cell()) == map[] || Ahead(r, s, now, xs[j].Cell()) {
      AheadIsNew(r, s, now, universe, i);
      assert ys[0] in ys[..Min(limit, |ys|)];
    } else {
      if q >= limit { CellsAreContiguous(xs, i, j - limit, j); }
      i := j;
    }
  }

  lemma ChosenBeforeIsSameCell(r: Store, s: Store, now: Time, universe: set<Item>, i: nat, j: nat)
    requires Paired(r, s, universe) && Tame(r, s, now) && AllHeldBefore(r, Agenda(s, now), j)
    requires i < j < |Agenda(s, now)| && Agenda(s, now)[i].SummaryKey() in Chosen(r, s, now)
    ensures Agenda(s, now)[i].Cell() == Agenda(s, now)[j].Cell()
  {
    hide Item.Admissible, NewerThan, KeyLess, IsLive, Traceable, Agenda, Tame, Keyed, Drawn, Has, Chosen;
    if Agenda(s, now)[i].Cell() != Agenda(s, now)[j].Cell() { FinishedCellIsQuiet(r, s, now, universe, i, j); }
  }

  ghost function Unheld(r: Store, xs: seq<Item>): set<nat> {
    set j: nat | j < |xs| && !Has(r, xs[j])
  }

  lemma UnheldFalls(r: Store, s: Store, now: Time, universe: set<Item>, limit: nat)
    requires OnCourse(r, s, now, universe, limit) && Unheld(r, Agenda(s, now)) != {}
    ensures |Unheld(PullOf(r, s, DiffOptions(now, limit)), Agenda(s, now))| < |Unheld(r, Agenda(s, now))|
  {
    hide Item.Admissible, NewerThan, KeyLess, IsLive, Traceable, Agenda, Tame, Keyed, Drawn, Has, LateAscends,
         LateClosed, PullOf, DiffOf, Marks;
    var xs, m := Agenda(s, now), PullOf(r, s, DiffOptions(now, limit));
    var u :| u in Unheld(r, xs);
    var j := FirstUnheld(r, xs, 0);
    var i := NewDelivery(r, s, now, universe, limit, j);
    PulledHas(r, s, now, universe, limit);
    assert xs[i] in xs;
    assert forall t :: 0 <= t < |xs| ==> xs[t] in xs;
    assert Unheld(m, xs) <= Unheld(r, xs) - {i};
    Gossip.SubsetSize(Unheld(m, xs), Unheld(r, xs) - {i});
  }

  lemma {:induction false} UnheldAfter(r: Store, s: Store, now: Time, universe: set<Item>, limit: nat, n: nat)
    requires OnCourse(r, s, now, universe, limit)
    ensures var m := PullTimesWith(r, s, DiffOptions(now, limit), n);
            && OnCourse(m, s, now, universe, limit)
            && (Unheld(m, Agenda(s, now)) == {} || |Unheld(m, Agenda(s, now))| + n <= |Unheld(r, Agenda(s, now))|)
  {
    hide Item.Admissible, NewerThan, KeyLess, IsLive, Traceable, Agenda, Tame, Keyed, Drawn, Unheld, LateAscends,
         LateClosed, PullOf;
    if n > 0 {
      UnheldAfter(r, s, now, universe, limit, n - 1);
      var m := PullTimesWith(r, s, DiffOptions(now, limit), n - 1);
      StaysOnCourse(m, s, now, universe, limit);
      if Unheld(m, Agenda(s, now)) != {} {
        UnheldFalls(m, s, now, universe, limit);
      } else {
        NothingLost(m, s, now, universe, limit);
      }
    }
  }

  lemma NothingLost(r: Store, s: Store, now: Time, universe: set<Item>, limit: nat)
    requires OnCourse(r, s, now, universe, limit) && Unheld(r, Agenda(s, now)) == {}
    ensures Unheld(PullOf(r, s, DiffOptions(now, limit)), Agenda(s, now)) == {}
  {
    hide Item.Admissible, NewerThan, KeyLess, IsLive, Traceable, Agenda, Tame, Keyed, Drawn, Has, LateAscends,
         LateClosed, PullOf, DiffOf, Marks;
    PulledHas(r, s, now, universe, limit);
    var xs, m := Agenda(s, now), PullOf(r, s, DiffOptions(now, limit));
    forall j: nat | j < |xs| ensures Has(m, xs[j]) {
      assert j !in Unheld(r, xs);
      assert xs[j] in xs;
    }
  }

  lemma AllHeldIsLive(r: Store, s: Store, now: Time)
    requires Keyed(r) && Keyed(s) && Tame(r, s, now) && Unheld(r, Agenda(s, now)) == {}
    ensures Live(r, now) == Live(s, now)
  {
    hide Item.Admissible, NewerThan, KeyLess, IsLive, Agenda;
    forall k | k in Live(s, now) ensures k in Live(r, now) {
      var j := AgendaIndex(s, now, k);
      AgendaItem(s, now, j);
      assert j !in Unheld(r, Agenda(s, now));
    }
  }

  lemma OnCourseCatchesUp(r: Store, s: Store, now: Time, universe: set<Item>, limit: nat)
    requires OnCourse(r, s, now, universe, limit)
    ensures CatchesUpFrom(r, s, now, limit)
  {
    hide Item.Admissible, NewerThan, KeyLess, IsLive, Traceable, Agenda, Tame, Keyed, Drawn, Unheld, LateAscends,
         LateClosed, Live;
    var n := |Unheld(r, Agenda(s, now))| + 1;
    UnheldAfter(r, s, now, universe, limit, n);
    AllHeldIsLive(PullTimesWith(r, s, DiffOptions(now, limit), n), s, now);
  }

  // ---- From every prefix ----

  lemma PrefixIsTame(r: Store, s: Store, now: Time, universe: set<Item>, p: nat)
    requires Paired(r, s, universe) && HoldsPrefix(r, Agenda(s, now), now, p)
    ensures Tame(r, s, now)
    ensures forall i :: 0 <= i < |Agenda(s, now)| ==> (Has(r, Agenda(s, now)[i]) <==> i < p)
  {
    hide Item.Admissible, NewerThan, KeyLess, IsLive, Traceable, Agenda, Keyed, Drawn;
    var xs := Agenda(s, now);
    forall k | k in Live(r, now) ensures k in Live(s, now) && r[k] == s[k] {
      var i := HeldIndex(r, s, now, p, k);
      AgendaItem(s, now, i);
    }
    forall k | k in Live(s, now) && k in r ensures r[k] == s[k] || Newer(s[k], r[k]) {
      var i := AgendaIndex(s, now, k);
    }
    forall i | p <= i < |xs| ensures !Has(r, xs[i]) {
      NewerAsymmetric(VersionOf(xs[i]), VersionOf(xs[i]));
    }
  }

  lemma PrefixStore(s: Store, now: Time, universe: set<Item>, p: nat) returns (r: Store)
    requires Keyed(s) && Drawn(s, universe) && Traceable(universe) && p <= |Agenda(s, now)|
    ensures Paired(r, s, universe) && HoldsPrefix(r, Agenda(s, now), now, p)
  {
    hide Item.Admissible, NewerThan, KeyLess, IsLive, Traceable, Agenda, Keyed, Drawn, StoreOf;
    var xs := Agenda(s, now);
    ChunkAsStore(s, now, universe, 0, p);
    assert xs[0..p] == xs[..p];
    r := StoreOf(xs[..p]);
  }

  ghost predicate CatchesUpFromPrefixes(s: Store, now: Time, universe: set<Item>, limit: nat)
    requires Keyed(s)
  {
    forall r, p :: Paired(r, s, universe) && HoldsPrefix(r, Agenda(s, now), now, p) ==> CatchesUpFrom(r, s, now, limit)
  }

  /** Under this limit a receiver catches up from whatever prefix of the sender's
      listing it holds, exactly when within each cell every item but the first limit
      is newer than all before it. */
  lemma PrefixStartsExact(s: Store, now: Time, universe: set<Item>, limit: nat)
    requires Keyed(s) && Drawn(s, universe) && Traceable(universe) && limit > 0
    ensures CatchesUpFromPrefixes(s, now, universe, limit) <==> LateAscends(Agenda(s, now), limit)
  {
    hide Item.Admissible, NewerThan, KeyLess, IsLive, Traceable, Agenda, Keyed, Drawn, HoldsPrefix, Live, Has;
    var xs := Agenda(s, now);
    if LateAscends(xs, limit) {
      forall r, p | Paired(r, s, universe) && HoldsPrefix(r, xs, now, p) ensures CatchesUpFrom(r, s, now, limit) {
        PrefixIsTame(r, s, now, universe, p);
        OnCourseCatchesUp(r, s, now, universe, limit);
      }
    } else {
      var i, j :| 0 <= i < j < |xs| && Late(xs, j, limit) && xs[i].Cell() == xs[j].Cell() && !Newer(xs[j], xs[i]);
      var r := PrefixStore(s, now, universe, j);
      PrefixIsTame(r, s, now, universe, j);
      forall n: nat ensures Live(PullTimesWith(r, s, DiffOptions(now, limit), n), now) != Live(s, now) {
        NeverDelivered(r, s, now, universe, i, j, limit, n);
      }
      assert !CatchesUpFrom(r, s, now, limit);
    }
  }

  // ---- From an empty store, chunk by chunk ----

  /** No item across a chunk boundary from another of its cell is among the first
      limit of that cell. */
  ghost predicate Paged(xs: seq<Item>, limit: nat) {
    forall t: nat, i, j :: 0 <= i < Boundary(0, limit, t) <= j < |xs| && xs[i].Cell() == xs[j].Cell() ==>
      Late(xs, j, limit)
  }

  /** The first boundary that does not ascend. */
  lemma {:induction false} FirstDescent(xs: seq<Item>, limit: nat, t: nat) returns (u: nat)
    requires !BoundaryAscends(xs, Boundary(0, limit, t))
    ensures u <= t && !BoundaryAscends(xs, Boundary(0, limit, u))
    ensures forall v :: 0 <= v < u ==> BoundaryAscends(xs, Boundary(0, limit, v))
  {
    hide BoundaryAscends, Boundary;
    if v :| 0 <= v < t && !BoundaryAscends(xs, Boundary(0, limit, v)) {
      u := FirstDescent(xs, limit, v);
    } else {
      u := t;
    }
  }

  lemma BoundaryOrder(limit: nat, u: nat, v: nat)
    requires limit > 0
    ensures u < v <==> Boundary(0, limit, u) < Boundary(0, limit, v)
  {
    if u < v { assert u * limit < v * limit; }
    if v < u { assert v * limit < u * limit; }
  }

  lemma {:induction false} PullsAdd(r: Store, s: Store, opts: DiffOptions, m: nat, n: nat)
    requires Keyed(r) && Keyed(s)
    ensures PullTimesWith(PullTimesWith(r, s, opts, m), s, opts, n) == PullTimesWith(r, s, opts, m + n)
  {
    hide Keyed, PullOf;
    if n > 0 { PullsAdd(r, s, opts, m, n - 1); }
  }

  lemma ReachesBoundary(r: Store, s: Store, now: Time, universe: set<Item>, limit: nat, u: nat, n: nat)
    requires Paired(r, s, universe) && HoldsPrefix(r, Agenda(s, now), now, 0) && limit > 0 && n <= u
    requires forall v :: 0 <= v < u ==> BoundaryAscends(Agenda(s, now), Boundary(0, limit, v))
    ensures var m := PullTimesWith(r, s, DiffOptions(now, limit), n);
            Paired(m, s, universe)
            && HoldsPrefix(m, Agenda(s, now), now, Min(Boundary(0, limit, n), |Agenda(s, now)|))
  {
    hide Item.Admissible, NewerThan, KeyLess, IsLive, Traceable, Agenda, Keyed, Drawn, HoldsPrefix,
         PullTimesWith, Boundary, BoundaryAscends;
    forall v: nat | Boundary(0, limit, v) < Boundary(0, limit, n) ensures v < u { BoundaryOrder(limit, v, n); }
    PrefixAfter(r, s, now, universe, 0, limit, n);
  }

  lemma BeforeADescent(r: Store, s: Store, now: Time, universe: set<Item>, limit: nat, u: nat, n: nat)
    requires Paired(r, s, universe) && HoldsPrefix(r, Agenda(s, now), now, 0) && limit > 0 && n < u
    requires Boundary(0, limit, u) < |Agenda(s, now)|
    requires forall v :: 0 <= v < u ==> BoundaryAscends(Agenda(s, now), Boundary(0, limit, v))
    ensures Live(PullTimesWith(r, s, DiffOptions(now, limit), n), now) != Live(s, now)
  {
    hide Item.Admissible, NewerThan, KeyLess, IsLive, Traceable, Agenda, Keyed, Drawn, HoldsPrefix, Live,
         PullTimesWith, Boundary, BoundaryAscends;
    ReachesBoundary(r, s, now, universe, limit, u, n);
    BoundaryOrder(limit, n, u);
    PrefixIsAll(PullTimesWith(r, s, DiffOptions(now, limit), n), s, now, universe, Boundary(0, limit, n));
  }

  lemma BehindADescent(r: Store, s: Store, now: Time, universe: set<Item>, limit: nat, q: nat, n: nat)
    requires Paired(r, s, universe) && HoldsPrefix(r, Agenda(s, now), now, q) && limit > 0
    requires !BoundaryAscends(Agenda(s, now), q)
    requires forall i, j :: 0 <= i < q <= j < |Agenda(s, now)| && Agenda(s, now)[i].Cell() == Agenda(s, now)[j].Cell()
               ==> Late(Agenda(s, now), j, limit)
    ensures Live(PullTimesWith(r, s, DiffOptions(now, limit), n), now) != Live(s, now)
  {
    hide Item.Admissible, NewerThan, KeyLess, IsLive, Traceable, Agenda, Keyed, Drawn, HoldsPrefix, Live, Has,
         PullTimesWith, Late, Tame;
    var xs := Agenda(s, now);
    var i, j :| 0 <= i < q <= j < |xs| && xs[i].Cell() == xs[j].Cell() && !Newer(xs[j], xs[i]);
    PrefixIsTame(r, s, now, universe, q);
    NeverDelivered(r, s, now, universe, i, j, limit, n);
  }

  lemma NeverPastADescent(r: Store, s: Store, now: Time, universe: set<Item>, limit: nat, u: nat, n: nat)
    requires Paired(r, s, universe) && HoldsPrefix(r, Agenda(s, now), now, 0) && limit > 0
    requires Paged(Agenda(s, now), limit) && !BoundaryAscends(Agenda(s, now), Boundary(0, limit, u))
    requires Boundary(0, limit, u) < |Agenda(s, now)|
    requires forall v :: 0 <= v < u ==> BoundaryAscends(Agenda(s, now), Boundary(0, limit, v))
    ensures Live(PullTimesWith(r, s, DiffOptions(now, limit), n), now) != Live(s, now)
  {
    hide Item.Admissible, NewerThan, KeyLess, IsLive, Traceable, Agenda, Keyed, Drawn, HoldsPrefix, Live,
         PullTimesWith, Boundary, Late, BoundaryAscends;
    if n < u {
      BeforeADescent(r, s, now, universe, limit, u, n);
    } else {
      ReachesBoundary(r, s, now, universe, limit, u, u);
      var m := PullTimesWith(r, s, DiffOptions(now, limit), u);
      BehindADescent(m, s, now, universe, limit, Boundary(0, limit, u), n - u);
      PullsAdd(r, s, DiffOptions(now, limit), u, n - u);
    }
  }

  /** A receiver with none of the live items catches up under this limit, from a
      sender whose cells meet the chunk boundaries beyond their first limit items,
      exactly when at each boundary every cell's later items are newer than its
      earlier ones. */
  lemma PagedExact(r: Store, s: Store, now: Time, universe: set<Item>, limit: nat)
    requires Paired(r, s, universe) && HoldsPrefix(r, Agenda(s, now), now, 0) && limit > 0
    requires Paged(Agenda(s, now), limit)
    ensures CatchesUpFrom(r, s, now, limit) <==> BoundariesAscend(Agenda(s, now), 0, limit, |Agenda(s, now)|)
  {
    hide Item.Admissible, NewerThan, KeyLess, IsLive, Traceable, Agenda, Keyed, Drawn, Live, PullTimesWith,
         BoundaryAscends, Boundary, Paged, HoldsPrefix;
    var xs := Agenda(s, now);
    if BoundariesAscend(xs, 0, limit, |xs|) {
      BoundedCatchUpExact(r, s, now, universe, 0, limit, CeilDiv(|xs|, limit));
    } else {
      var t: nat :| Boundary(0, limit, t) < |xs| && !BoundaryAscends(xs, Boundary(0, limit, t));
      var u := FirstDescent(xs, limit, t);
      if u < t { BoundaryOrder(limit, u, t); }
      forall n: nat ensures Live(PullTimesWith(r, s, DiffOptions(now, limit), n), now) != Live(s, now) {
        NeverPastADescent(r, s, now, universe, limit, u, n);
      }
    }
  }

  lemma PastFirstBoundary(limit: nat, t: nat)
    requires Boundary(0, limit, t) > 0
    ensures Boundary(0, limit, t) >= limit
  {
    assert t > 0;
    assert t * limit == (t - 1) * limit + limit;
  }

  /** A single cell fits the chunks whatever the limit. */
  lemma OneCellIsPaged(xs: seq<Item>, limit: nat)
    requires forall i, j :: 0 <= i < |xs| && 0 <= j < |xs| ==> xs[i].Cell() == xs[j].Cell()
    ensures Paged(xs, limit)
  {
    hide Boundary;
    forall t: nat, i, j | 0 <= i < Boundary(0, limit, t) <= j < |xs| && xs[i].Cell() == xs[j].Cell()
      ensures Late(xs, j, limit)
    {
      PastFirstBoundary(limit, t);
    }
  }

  /** A receiver with none of the live items catches up with a sender of one cell under
      this limit exactly when at each chunk boundary the later items are newer. */
  lemma OneCellExact(r: Store, s: Store, now: Time, universe: set<Item>, limit: nat)
    requires Paired(r, s, universe) && HoldsPrefix(r, Agenda(s, now), now, 0) && limit > 0
    requires forall i, j :: 0 <= i < |Agenda(s, now)| && 0 <= j < |Agenda(s, now)| ==>
      Agenda(s, now)[i].Cell() == Agenda(s, now)[j].Cell()
    ensures CatchesUpFrom(r, s, now, limit) <==> BoundariesAscend(Agenda(s, now), 0, limit, |Agenda(s, now)|)
  {
    hide Item.Admissible, NewerThan, KeyLess, IsLive, Traceable, Agenda, Keyed, Drawn, CatchesUpFrom,
         BoundariesAscend, Paged, HoldsPrefix;
    OneCellIsPaged(Agenda(s, now), limit);
    PagedExact(r, s, now, universe, limit);
  }

  /** Every sender fits chunks of one item. */
  lemma SinglesArePaged(xs: seq<Item>)
    requires Ascending(xs)
    ensures Paged(xs, 1)
  {
    hide KeyLess, Boundary;
    forall t: nat, i, j | 0 <= i < Boundary(0, 1, t) <= j < |xs| && xs[i].Cell() == xs[j].Cell()
      ensures Late(xs, j, 1)
    {
      CellsAreContiguous(xs, i, j - 1, j);
    }
  }

  // ---- Under every limit ----

  ghost predicate VersionsAscend(xs: seq<Item>) {
    forall i, j :: 0 <= i < j < |xs| && xs[i].Cell() == xs[j].Cell() ==> Newer(xs[j], xs[i])
  }

  lemma AscentAtSingles(xs: seq<Item>)
    ensures BoundariesAscend(xs, 0, 1, |xs|) <==> VersionsAscend(xs)
  {
    hide NewerThan;
    if BoundariesAscend(xs, 0, 1, |xs|) {
      forall i, j | 0 <= i < j < |xs| && xs[i].Cell() == xs[j].Cell() ensures Newer(xs[j], xs[i]) {
        assert BoundaryAscends(xs, Boundary(0, 1, j));
      }
    }
  }

  lemma AscentAtAll(xs: seq<Item>, limit: nat)
    requires VersionsAscend(xs)
    ensures LateAscends(xs, limit)
  {
    hide NewerThan;
  }

  lemma EmptyIsPrefix(s: Store, now: Time, universe: set<Item>)
    requires Keyed(s) && Drawn(s, universe) && Traceable(universe)
    ensures Paired(map[], s, universe) && HoldsPrefix(map[], Agenda(s, now), now, 0)
  {
    hide Traceable, Item.Admissible;
  }

  /** An empty receiver catches up under every item limit exactly when, in each
      of the sender's cells, versions strictly ascend in entity order. */
  lemma CatchesUpExact(s: Store, now: Time, universe: set<Item>)
    requires Keyed(s) && Drawn(s, universe) && Traceable(universe)
    ensures Keyed(map[])
    ensures (forall limit: nat :: limit > 0 ==> CatchesUpFrom(map[], s, now, limit))
            <==> VersionsAscend(Agenda(s, now))
  {
    hide Item.Admissible, NewerThan, KeyLess, IsLive, Traceable, Agenda, CatchesUpFrom, BoundariesAscend,
         VersionsAscend, LateAscends, HoldsPrefix, Drawn;
    EmptyIsPrefix(s, now, universe);
    var xs := Agenda(s, now);
    AscentAtSingles(xs);
    SinglesArePaged(xs);
    PagedExact(map[], s, now, universe, 1);
    if VersionsAscend(xs) {
      forall limit: nat | limit > 0 ensures CatchesUpFrom(map[], s, now, limit) {
        AscentAtAll(xs, limit);
        PrefixStartsExact(s, now, universe, limit);
      }
    }
  }
}
