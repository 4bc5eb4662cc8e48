/** Repeated unbounded pulls from an unchanged sender: exactly when one, two, or
    any number of them complete. */
module CatchUp {
  import opened Items
  import opened VersionOrder
  import opened SummaryStore
  import opened Watermarks
  import opened Pull

  /** A receiver and a sender that draw on one traceable set of items. */
  ghost predicate Paired(r: Store, s: Store, universe: set<Item>) {
    Keyed(r) && Keyed(s) && Drawn(r, universe) && Drawn(s, universe) && Traceable(universe)
  }

  /** The receiver lacks the sender's live item at k, or holds an older one. */
  ghost predicate Missing(r: Store, live: Store, k: Key) {
    k in live && (k !in r || Newer(live[k], r[k]))
  }

  /** Everything a pull should achieve: per key the newest of both. */
  ghost function Complete(r: Store, s: Store, now: Time): Store {
    Merge(r, Live(s, now))
  }

  lemma LiveIsKeyed(m: Store, now: Time, universe: set<Item>)
    requires Keyed(m) && Drawn(m, universe)
    ensures Keyed(Live(m, now)) && Drawn(Live(m, now), universe)
  {
  }

  ghost function LiveCell(m: Store, now: Time, c: CellID): (a: Store)
    requires Keyed(m)
    ensures Keyed(a)
  {
    CellOf(Live(m, now), c)
  }

  /** The sender's cell is ahead, so that only items newer than the receiver's
      watermark of that cell are sent. */
  ghost predicate Ahead(r: Store, s: Store, now: Time, c: CellID)
    requires Keyed(r) && Keyed(s)
  {
    && LiveCell(s, now, c) != map[] && LiveCell(r, now, c) != map[]
    && Newer(Top(LiveCell(s, now, c)), Top(LiveCell(r, now, c)))
  }

  /** An item of such a cell that is missing and yet below the watermark. */
  ghost predicate Skipped(r: Store, s: Store, now: Time, k: Key)
    requires Keyed(r) && Keyed(s)
  {
    && Missing(r, Live(s, now), k) && Ahead(r, s, now, k.cell)
    && !Newer(Live(s, now)[k], Top(LiveCell(r, now, k.cell)))
  }

  lemma MissingIsSentOrSkipped(r: Store, s: Store, now: Time, universe: set<Item>, k: Key)
    requires Paired(r, s, universe) && Missing(r, Live(s, now), k)
    ensures k in Chosen(r, s, now) <==> !Skipped(r, s, now, k)
  {
    hide Item.Admissible, NewerThan, IsLive, Traceable, Top, Marks, Selection;
    var live, peer := Live(s, now), Live(r, now);
    LiveIsKeyed(r, now, universe);
    LiveIsKeyed(s, now, universe);
    SelectionAt(live, peer, universe, k);
    var a, b := LiveCell(s, now, k.cell), LiveCell(r, now, k.cell);
    NewerAsymmetric(VersionOf(live[k]), VersionOf(live[k]));
    assert k in a && a[k] == live[k];
  }

  /** One pull completes exactly when no missing item is skipped. */
  lemma OnePullExact(r: Store, s: Store, now: Time, universe: set<Item>)
    requires Paired(r, s, universe)
    ensures Pulled(r, s, now) == Complete(r, s, now) <==> forall k :: !Skipped(r, s, now, k)
  {
    hide Item.Admissible, IsLive, Traceable, Skipped, Merge, Chosen, Complete, Pulled;
    PulledMerges(r, s, now);
    forall k | Skipped(r, s, now, k) ensures Pulled(r, s, now) != Complete(r, s, now) {
      SkippedIsNotMerged(r, s, now, universe, k);
    }
    if forall k :: !Skipped(r, s, now, k) { NothingSkipped(r, s, now, universe); }
  }

  lemma NothingSkipped(r: Store, s: Store, now: Time, universe: set<Item>)
    requires Paired(r, s, universe) && forall k :: !Skipped(r, s, now, k)
    ensures Merge(r, Chosen(r, s, now)) == Complete(r, s, now)
  {
    hide Item.Admissible, Traceable, Skipped, Merge, Chosen, Complete;
    var m, n := Merge(r, Chosen(r, s, now)), Complete(r, s, now);
    forall k ensures (k in m <==> k in n) && (k in m ==> m[k] == n[k]) {
      UnskippedIsMerged(r, s, now, universe, k);
    }
  }

  lemma SkippedIsNotMerged(r: Store, s: Store, now: Time, universe: set<Item>, k: Key)
    requires Paired(r, s, universe) && Skipped(r, s, now, k)
    ensures Merge(r, Chosen(r, s, now)) != Complete(r, s, now)
  {
    hide Item.Admissible, NewerThan, IsLive, Traceable, Ahead, Marks, Selection, Top;
    MissingIsSentOrSkipped(r, s, now, universe, k);
    var live := Live(s, now);
    NewerAsymmetric(VersionOf(live[k]), VersionOf(live[k]));
    assert k in Merge(r, live) && Merge(r, live)[k] == live[k];
  }

  lemma UnskippedIsMerged(r: Store, s: Store, now: Time, universe: set<Item>, k: Key)
    requires Paired(r, s, universe) && !Skipped(r, s, now, k)
    ensures var m, n := Merge(r, Chosen(r, s, now)), Complete(r, s, now);
            (k in m <==> k in n) && (k in m ==> m[k] == n[k])
  {
    hide Item.Admissible, NewerThan, IsLive, Traceable, Ahead, Marks, Selection, Skipped;
    LiveIsKeyed(s, now, universe);
    SelectionWithin(Live(s, now), Marks(Live(r, now)));
    if Missing(r, Live(s, now), k) {
      MissingIsSentOrSkipped(r, s, now, universe, k);
    }
  }

  // ---- Two pulls, and any number ----

  ghost function PullTimes(r: Store, s: Store, now: Time, n: nat): (m: Store)
    requires Keyed(r) && Keyed(s)
    ensures Keyed(m)
  {
    if n == 0 then r
    else
      PulledMerges(PullTimes(r, s, now, n - 1), s, now);
      Pulled(PullTimes(r, s, now, n - 1), s, now)
  }

  /** Each newest item of the sender's cell is matched or surpassed by the
      receiver's own entry of that key. */
  ghost predicate Shadowed(r: Store, s: Store, now: Time, c: CellID)
    requires Keyed(r) && Keyed(s)
  {
    && LiveCell(s, now, c) != map[]
    && forall k :: k in LiveCell(s, now, c)
         && !Newer(Top(LiveCell(s, now, c)), LiveCell(s, now, c)[k])
         ==> !Missing(r, Live(s, now), k)
  }

  /** A cell that no number of pulls repairs: something is skipped, and the
      sender's newest item cannot move the receiver's watermark past it because
      the receiver holds an expired entry at least as new. */
  ghost predicate Stuck(r: Store, s: Store, now: Time, c: CellID)
    requires Keyed(r) && Keyed(s)
  {
    Shadowed(r, s, now, c) && exists k: Key :: k.cell == c && Skipped(r, s, now, k)
  }

  /** Where a pull leaves one key. */
  lemma PulledAt(r: Store, s: Store, now: Time, universe: set<Item>, k: Key)
    requires Paired(r, s, universe)
    ensures var r1, live := Pulled(r, s, now), Live(s, now);
            && (Missing(r, live, k) && k in Chosen(r, s, now) ==> k in r1 && r1[k] == live[k])
            && (!(Missing(r, live, k) && k in Chosen(r, s, now)) ==>
                  (k in r1 <==> k in r) && (k in r ==> r1[k] == r[k]))
  {
    hide Item.Admissible, NewerThan, IsLive, Traceable, Marks, Selection;
    LiveIsKeyed(s, now, universe);
    PulledMerges(r, s, now);
    SelectionWithin(Live(s, now), Marks(Live(r, now)));
  }

  lemma PullKeepsPaired(r: Store, s: Store, now: Time, universe: set<Item>)
    requires Paired(r, s, universe)
    ensures Paired(Pulled(r, s, now), s, universe)
  {
    hide Item.Admissible, NewerThan, IsLive, Traceable, Marks, Selection;
    PulledMerges(r, s, now);
    LiveIsKeyed(s, now, universe);
    forall k | k in Pulled(r, s, now) ensures Pulled(r, s, now)[k] in universe {
      PulledAt(r, s, now, universe, k);
    }
  }

  /** A key that is not missing stays so. */
  lemma NotMissingStays(r: Store, s: Store, now: Time, universe: set<Item>, k: Key)
    requires Paired(r, s, universe) && !Missing(r, Live(s, now), k)
    ensures !Missing(Pulled(r, s, now), Live(s, now), k)
  {
    hide Item.Admissible, NewerThan, IsLive, Traceable, Marks, Selection, Pulled, Chosen, Keyed;
    PulledAt(r, s, now, universe, k);
  }

  /** Pulling again and merging comes to the same as merging at once. */
  lemma CompleteAgain(r: Store, s: Store, now: Time, universe: set<Item>)
    requires Paired(r, s, universe)
    ensures Keyed(Pulled(r, s, now))
    ensures Complete(Pulled(r, s, now), s, now) == Complete(r, s, now)
  {
    hide Item.Admissible, NewerThan, IsLive, Traceable, Marks, Selection, Keyed;
    PulledMerges(r, s, now);
    var r1, live := Pulled(r, s, now), Live(s, now);
    forall k ensures (k in Merge(r1, live) <==> k in Merge(r, live))
                  && (k in Merge(r, live) ==> Merge(r1, live)[k] == Merge(r, live)[k])
    {
      PulledAt(r, s, now, universe, k);
      if k in live { NewerAsymmetric(VersionOf(live[k]), VersionOf(live[k])); }
    }
  }

  // ---- How one cell's watermark moves under a pull ----

  lemma EntryInCell(m: Store, now: Time, k: Key)
    requires Keyed(m)
    ensures k in LiveCell(m, now, k.cell) <==> k in m && IsLive(m[k], now)
    ensures k in LiveCell(m, now, k.cell) ==>
      LiveCell(m, now, k.cell)[k] == m[k] && !Newer(m[k], Top(LiveCell(m, now, k.cell)))
  {
    hide Item.Admissible, NewerThan, IsLive, Top;
    var a := LiveCell(m, now, k.cell);
    if a != map[] { TopIsNewest(a); }
  }

  lemma TopEntry(m: Store, now: Time, c: CellID)
    requires Keyed(m) && LiveCell(m, now, c) != map[]
    ensures var t := Top(LiveCell(m, now, c));
            && t.SummaryKey() in m && m[t.SummaryKey()] == t && IsLive(t, now)
            && t.SummaryKey().cell == c
  {
    hide Item.Admissible, NewerThan, IsLive, Top;
    TopIsNewest(LiveCell(m, now, c));
  }

  lemma TopRises(r: Store, s: Store, now: Time, universe: set<Item>, c: CellID)
    requires Paired(r, s, universe) && LiveCell(r, now, c) != map[]
    ensures Keyed(Pulled(r, s, now)) && LiveCell(Pulled(r, s, now), now, c) != map[]
    ensures !Newer(Top(LiveCell(r, now, c)), Top(LiveCell(Pulled(r, s, now), now, c)))
  {
    hide Item.Admissible, NewerThan, IsLive, Traceable, Top, LiveCell, Marks, Selection, Pulled, Keyed;
    PulledMerges(r, s, now);
    TopEntry(r, now, c);
    var r1, t := Pulled(r, s, now), Top(LiveCell(r, now, c));
    var k := t.SummaryKey();
    PulledAt(r, s, now, universe, k);
    EntryInCell(r1, now, k);
    NewerAsymmetric(VersionOf(t), VersionOf(r1[k]));
    NotNewerTransitive(VersionOf(t), VersionOf(r1[k]), VersionOf(Top(LiveCell(r1, now, c))));
  }

  lemma ShadowedStaysAhead(r: Store, s: Store, now: Time, universe: set<Item>, c: CellID)
    requires Paired(r, s, universe) && Ahead(r, s, now, c) && Shadowed(r, s, now, c)
    ensures Keyed(Pulled(r, s, now)) && Ahead(Pulled(r, s, now), s, now, c)
  {
    hide Item.Admissible, NewerThan, IsLive, Traceable, Top, Marks, Selection, Pulled, Keyed;
    TopRises(r, s, now, universe, c);
    var r1 := Pulled(r, s, now);
    TopEntry(r1, now, c);
    var ta, tb := Top(LiveCell(s, now, c)), Top(LiveCell(r, now, c));
    var t := Top(LiveCell(r1, now, c));
    var k := t.SummaryKey();
    PulledAt(r, s, now, universe, k);
    if Missing(r, Live(s, now), k) && k in Chosen(r, s, now) {
      assert Newer(ta, t);
    } else {
      EntryInCell(r, now, k);
      NewerTransitive(VersionOf(ta), VersionOf(tb), VersionOf(t));
    }
  }

  lemma UnshadowedCatchesUp(r: Store, s: Store, now: Time, universe: set<Item>, c: CellID)
    requires Paired(r, s, universe) && Ahead(r, s, now, c) && !Shadowed(r, s, now, c)
    ensures Keyed(Pulled(r, s, now)) && !Ahead(Pulled(r, s, now), s, now, c)
  {
    hide Item.Admissible, NewerThan, IsLive, Traceable, Top, Marks, Selection, Pulled, Keyed,
         Chosen, Skipped;
    PulledMerges(r, s, now);
    var live, r1 := Live(s, now), Pulled(r, s, now);
    var ta, tb := Top(LiveCell(s, now, c)), Top(LiveCell(r, now, c));
    var k :| k in LiveCell(s, now, c) && !Newer(ta, LiveCell(s, now, c)[k]) && Missing(r, live, k);
    assert k.cell == c && LiveCell(s, now, c)[k] == live[k];
    NewerTransitive(VersionOf(live[k]), VersionOf(ta), VersionOf(tb));
    NotSkippedAbove(r, s, now, k);
    MissingIsSentOrSkipped(r, s, now, universe, k);
    PulledAt(r, s, now, universe, k);
    EntryInCell(s, now, k);
    EntryInCell(r1, now, k);
    NotNewerTransitive(VersionOf(ta), VersionOf(live[k]), VersionOf(Top(LiveCell(r1, now, c))));
  }

  lemma NotSkippedAbove(r: Store, s: Store, now: Time, k: Key)
    requires Keyed(r) && Keyed(s) && k in Live(s, now) && LiveCell(r, now, k.cell) != map[]
    requires Newer(Live(s, now)[k], Top(LiveCell(r, now, k.cell)))
    ensures !Skipped(r, s, now, k)
  {
    hide Item.Admissible, NewerThan, IsLive, Top, Keyed, Ahead, Missing;
  }

  // ---- Exactness ----

  lemma StuckStays(r: Store, s: Store, now: Time, universe: set<Item>, c: CellID)
    requires Paired(r, s, universe) && Stuck(r, s, now, c)
    ensures Keyed(Pulled(r, s, now)) && Stuck(Pulled(r, s, now), s, now, c)
  {
    hide Item.Admissible, NewerThan, IsLive, Traceable, Top, Marks, Selection, Pulled, Keyed,
         Chosen, LiveCell, Missing;
    var k: Key :| k.cell == c && Skipped(r, s, now, k);
    PulledMerges(r, s, now);
    ShadowedStaysAhead(r, s, now, universe, c);
    TopRises(r, s, now, universe, c);
    var r1, live := Pulled(r, s, now), Live(s, now);
    forall j | !Missing(r, live, j) ensures !Missing(r1, live, j) {
      NotMissingStays(r, s, now, universe, j);
    }
    MissingIsSentOrSkipped(r, s, now, universe, k);
    UnsentStaysMissing(r, s, now, universe, k);
    NotNewerTransitive(VersionOf(live[k]), VersionOf(Top(LiveCell(r, now, c))),
                       VersionOf(Top(LiveCell(r1, now, c))));
    assert Skipped(r1, s, now, k);
  }

  lemma UnsentStaysMissing(r: Store, s: Store, now: Time, universe: set<Item>, k: Key)
    requires Paired(r, s, universe) && Missing(r, Live(s, now), k)
    ensures k in Live(s, now)
    ensures Missing(Pulled(r, s, now), Live(s, now), k) <==> k !in Chosen(r, s, now)
  {
    hide Item.Admissible, NewerThan, IsLive, Traceable, Marks, Selection, Pulled, Chosen, Keyed;
    PulledAt(r, s, now, universe, k);
    NewerAsymmetric(VersionOf(Live(s, now)[k]), VersionOf(Live(s, now)[k]));
  }

  /** What a second pull would skip lies in a stuck cell. */
  lemma SkippedTwiceIsStuck(r: Store, s: Store, now: Time, universe: set<Item>, k: Key)
    requires Paired(r, s, universe)
    requires Keyed(Pulled(r, s, now)) && Skipped(Pulled(r, s, now), s, now, k)
    ensures Stuck(r, s, now, k.cell)
  {
    hide Item.Admissible, NewerThan, IsLive, Traceable, Top, Marks, Selection, Pulled, Keyed,
         Chosen, LiveCell, Missing, Ahead, Shadowed;
    if !Missing(r, Live(s, now), k) {
      NotMissingStays(r, s, now, universe, k);
    } else {
      UnsentStaysMissing(r, s, now, universe, k);
      MissingIsSentOrSkipped(r, s, now, universe, k);
      if !Shadowed(r, s, now, k.cell) {
        UnshadowedCatchesUp(r, s, now, universe, k.cell);
      }
    }
  }

  /** Two pulls complete exactly when no cell is stuck. */
  lemma TwoPullsExact(r: Store, s: Store, now: Time, universe: set<Item>)
    requires Paired(r, s, universe)
    ensures PullTimes(r, s, now, 2) == Complete(r, s, now) <==> forall c :: !Stuck(r, s, now, c)
  {
    hide Item.Admissible, NewerThan, IsLive, Traceable, Top, Marks, Selection, Pulled, Keyed,
         Chosen, LiveCell, Missing, Ahead, Shadowed, Skipped;
    PullKeepsPaired(r, s, now, universe);
    var r1 := Pulled(r, s, now);
    TwoPulls(r, s, now);
    OnePullExact(r1, s, now, universe);
    CompleteAgain(r, s, now, universe);
    forall c | Stuck(r, s, now, c) ensures exists k :: Skipped(r1, s, now, k) {
      StuckStays(r, s, now, universe, c);
    }
    forall k | Skipped(r1, s, now, k) ensures Stuck(r, s, now, k.cell) {
      SkippedTwiceIsStuck(r, s, now, universe, k);
    }
  }

  lemma TwoPulls(r: Store, s: Store, now: Time)
    requires Keyed(r) && Keyed(s)
    ensures Keyed(Pulled(r, s, now))
    ensures PullTimes(r, s, now, 2) == Pulled(Pulled(r, s, now), s, now)
  {
    hide Pulled, Keyed;
    assert PullTimes(r, s, now, 1) == Pulled(PullTimes(r, s, now, 0), s, now);
  }

  /** A stuck cell stays stuck, and its store incomplete, however often one pulls. */
  lemma {:induction false} StuckForever(r: Store, s: Store, now: Time, universe: set<Item>,
                                        c: CellID, n: nat)
    requires Paired(r, s, universe) && Stuck(r, s, now, c)
    ensures Paired(PullTimes(r, s, now, n), s, universe)
    ensures Stuck(PullTimes(r, s, now, n), s, now, c)
    ensures Complete(PullTimes(r, s, now, n), s, now) == Complete(r, s, now)
    ensures PullTimes(r, s, now, n) != Complete(r, s, now)
  {
    hide Item.Admissible, NewerThan, IsLive, Traceable, Top, Marks, Selection, Pulled, Keyed,
         Chosen, LiveCell, Ahead, Shadowed, Complete, Missing;
    if n > 0 {
      StuckForever(r, s, now, universe, c, n - 1);
      var m := PullTimes(r, s, now, n - 1);
      StuckStays(m, s, now, universe, c);
      PullKeepsPaired(m, s, now, universe);
      CompleteAgain(m, s, now, universe);
    }
    StuckIsIncomplete(PullTimes(r, s, now, n), s, now, c);
  }

  lemma StuckIsIncomplete(r: Store, s: Store, now: Time, c: CellID)
    requires Keyed(r) && Keyed(s) && Stuck(r, s, now, c)
    ensures r != Complete(r, s, now)
  {
    hide Item.Admissible, NewerThan, IsLive, Top, LiveCell, Ahead, Shadowed;
    var k: Key :| k.cell == c && Skipped(r, s, now, k);
    var live := Live(s, now);
    NewerAsymmetric(VersionOf(live[k]), VersionOf(live[k]));
    assert k in Merge(r, live) && Merge(r, live)[k] == live[k];
  }

  /** Some number of pulls completes exactly when two do, exactly when no cell is stuck. */
  lemma PullsExact(r: Store, s: Store, now: Time, universe: set<Item>)
    requires Paired(r, s, universe)
    ensures (exists n: nat :: PullTimes(r, s, now, n) == Complete(r, s, now))
            <==> (forall c :: !Stuck(r, s, now, c))
    ensures (forall c :: !Stuck(r, s, now, c)) ==> PullTimes(r, s, now, 2) == Complete(r, s, now)
  {
    hide Item.Admissible, NewerThan, IsLive, Traceable, Top, Marks, Selection, Pulled, Keyed,
         Chosen, LiveCell, Ahead, Shadowed, Complete, Missing, Stuck, PullTimes;
    TwoPullsExact(r, s, now, universe);
    forall c, n: nat | Stuck(r, s, now, c) ensures PullTimes(r, s, now, n) != Complete(r, s, now) {
      StuckForever(r, s, now, universe, c, n);
    }
  }
}
