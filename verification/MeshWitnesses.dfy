/** Small stores on which the pull protocol falls short. */
module MeshWitnesses {
  import opened Items
  import opened VersionOrder
  import opened SummaryStore
  import opened ItemOrder
  import opened CellDigest
  import opened Watermarks
  import opened Pull
  import opened CatchUp
  import opened Gossip
  import opened BoundedCatchUp
  import opened LimitedCatchUp
  import opened WatermarkLaws
  import Text

  const CELL := CellID("n", "v", "g")

  /** A valid summary of one cell, versioned by its sequence. */
  function Sample(entity: string, sequence: nat, operation: string, expiresAt: Time): Item {
    Item(Envelope(CELL, entity, sequence, None, operation, 1, expiresAt, PeerSummary, 1.0,
                           LastWriterWins, HashBytes([0]), None), [0])
  }

  function KeyOf(entity: string): Key {
    Key(CELL, entity)
  }

  lemma SampleIsAdmissible(entity: string, sequence: nat, operation: string, expiresAt: Time)
    requires entity != "" && !Text.IsSpace(entity[0]) && operation != "" && !Text.IsSpace(operation[0])
    requires sequence > 0 && expiresAt > 1
    ensures Sample(entity, sequence, operation, expiresAt).Admissible()
  {
    var x := Sample(entity, sequence, operation, expiresAt);
    assert !Text.IsSpace(CELL.node[0]) && !Text.IsSpace(CELL.vehicle[0]) && !Text.IsSpace(CELL.group[0]);
    assert !Text.IsSpace(x.envelope.payloadHash[0]);
  }

  lemma SampleIsClean(entity: string, sequence: nat, operation: string, expiresAt: Time)
    requires '\0' !in entity && '\n' !in entity && '\0' !in operation && '\n' !in operation
    ensures FieldsOf(Sample(entity, sequence, operation, expiresAt)).Clean()
  {
  }

  const A3 := Sample("a", 3, "a3", 100)
  const A5 := Sample("a", 5, "a5", 100)
  const A6 := Sample("a", 6, "a6", 10)
  const B1 := Sample("b", 1, "b1", 100)
  const C2 := Sample("c", 2, "c2", 100)

  lemma SamplesAreFine()
    ensures A3.Admissible() && A5.Admissible() && A6.Admissible() && B1.Admissible() && C2.Admissible()
    ensures FieldsOf(A3).Clean() && FieldsOf(A5).Clean() && FieldsOf(A6).Clean()
    ensures FieldsOf(B1).Clean() && FieldsOf(C2).Clean()
  {
    hide Item.Admissible, Fields.Clean;
    SampleIsAdmissible("a", 3, "a3", 100);
    SampleIsAdmissible("a", 5, "a5", 100);
    SampleIsAdmissible("a", 6, "a6", 10);
    SampleIsAdmissible("b", 1, "b1", 100);
    SampleIsAdmissible("c", 2, "c2", 100);
    SampleIsClean("a", 3, "a3", 100);
    SampleIsClean("a", 5, "a5", 100);
    SampleIsClean("a", 6, "a6", 10);
    SampleIsClean("b", 1, "b1", 100);
    SampleIsClean("c", 2, "c2", 100);
  }

  lemma SampleOrder()
    ensures Newer(A5, A3) && Newer(A6, A5) && Newer(A5, B1) && Newer(A5, C2)
    ensures !Newer(A3, A5) && !Newer(A5, A6) && !Newer(B1, A3) && !Newer(B1, A5) && !Newer(B1, C2)
  {
  }

  lemma SampleNames()
    ensures KeyOf("a") != KeyOf("b") && KeyOf("a") != KeyOf("c") && KeyOf("b") != KeyOf("c")
    ensures A3.envelope.operation != A5.envelope.operation && A5.envelope.operation != A6.envelope.operation
  {
  }

  // ---- One pull is not enough ----

  const BEHIND: Store := map[KeyOf("a") := A3]
  const SENDER: Store := map[KeyOf("a") := A5, KeyOf("b") := B1]

  lemma BehindSetting()
    ensures Paired(BEHIND, SENDER, {A3, A5, B1}) && Coherent({A3, A5, B1}, ZERO_TIME)
  {
    hide Item.Admissible, Fields.Clean, NewerThan;
    SamplesAreFine();
    SampleOrder();
    SampleNames();
  }

  lemma SenderTop(now: Time)
    requires Keyed(SENDER) && IsLive(A5, now) && IsLive(B1, now)
    ensures LiveCell(SENDER, now, CELL) != map[] && Top(LiveCell(SENDER, now, CELL)) == A5
  {
    hide Item.Admissible, NewerThan, IsLive, Top;
    SampleOrder();
    SampleNames();
    EntryInCell(SENDER, now, KeyOf("a"));
    TopEntry(SENDER, now, CELL);
  }

  /** The sender is ahead on "a", so its older "b" stays behind on the first pull;
      the second one, on a differing digest, sends it. */
  lemma OnePullIsNotEnough()
    ensures Keyed(BEHIND) && Keyed(SENDER)
    ensures Pulled(BEHIND, SENDER, ZERO_TIME) != Complete(BEHIND, SENDER, ZERO_TIME)
    ensures PullTimes(BEHIND, SENDER, ZERO_TIME, 2) == Complete(BEHIND, SENDER, ZERO_TIME)
  {
    hide Item.Admissible, NewerThan, Top, PullTimes, Pulled, Complete, Traceable, Untied, LiveCell;
    BehindSetting();
    SampleOrder();
    SampleNames();
    SenderTop(ZERO_TIME);
    EntryInCell(BEHIND, ZERO_TIME, KeyOf("a"));
    TopEntry(BEHIND, ZERO_TIME, CELL);
    assert Skipped(BEHIND, SENDER, ZERO_TIME, KeyOf("b"));
    OnePullExact(BEHIND, SENDER, ZERO_TIME, {A3, A5, B1});
    TwoPullsSuffice(BEHIND, SENDER, ZERO_TIME, {A3, A5, B1});
  }

  // ---- No number of pulls is enough when expiry does not follow versions ----

  const SHADOWING: Store := map[KeyOf("a") := A6, KeyOf("c") := C2]

  lemma ShadowingSetting()
    ensures Paired(SHADOWING, SENDER, {A5, A6, B1, C2})
  {
    hide Item.Admissible, Fields.Clean, NewerThan;
    SamplesAreFine();
    SampleNames();
  }

  lemma ShadowingTop()
    requires Keyed(SHADOWING)
    ensures LiveCell(SHADOWING, 50, CELL) != map[] && Top(LiveCell(SHADOWING, 50, CELL)) == C2
  {
    hide Item.Admissible, NewerThan, Top;
    SampleNames();
    EntryInCell(SHADOWING, 50, KeyOf("c"));
    TopEntry(SHADOWING, 50, CELL);
  }

  /** The receiver's newer "a" has expired: it keeps the sender's "a" out and the
      receiver's watermark down, so the sender's older "b" never arrives. */
  lemma ExpiredNewerEntryBlocks(n: nat)
    ensures Keyed(SHADOWING) && Keyed(SENDER)
    ensures PullTimes(SHADOWING, SENDER, 50, n) != Complete(SHADOWING, SENDER, 50)
  {
    hide Item.Admissible, NewerThan, Top, PullTimes, Pulled, Complete, Traceable, LiveCell;
    ShadowingSetting();
    SampleOrder();
    SampleNames();
    SenderTop(50);
    ShadowingTop();
    assert Skipped(SHADOWING, SENDER, 50, KeyOf("b"));
    forall k | k in LiveCell(SENDER, 50, CELL) && !Newer(A5, LiveCell(SENDER, 50, CELL)[k])
      ensures !Missing(SHADOWING, Live(SENDER, 50), k)
    {
      CellEntry(SENDER, 50, CELL, k);
    }
    assert Shadowed(SHADOWING, SENDER, 50, CELL);
    StuckForever(SHADOWING, SENDER, 50, {A5, A6, B1, C2}, CELL, n);
  }

  // ---- One item at a time is not enough when entity order is not version order ----

  lemma SenderDescends()
    ensures Keyed(SENDER) && !VersionsAscend(Agenda(SENDER, ZERO_TIME))
  {
    hide Item.Admissible, NewerThan, Agenda, KeyLess, Traceable;
    BehindSetting();
    SampleOrder();
    SampleNames();
    var e := AgendaIndex(SENDER, ZERO_TIME, KeyOf("a"));
    var f := AgendaIndex(SENDER, ZERO_TIME, KeyOf("b"));
    EntitiesInOrder(SENDER, e, f);
  }

  /** With a limit of one, "a" at sequence 5 is sent again and again and "b" at
      sequence 1 never. */
  lemma OneAtATimeBlocks()
    ensures Keyed(SENDER) && Keyed(map[]) && !CatchesUpFrom(map[], SENDER, ZERO_TIME, 1)
  {
    hide Item.Admissible, NewerThan, PullTimesWith, Agenda, KeyLess, Traceable, VersionsAscend, BoundariesAscend,
         HoldsPrefix;
    BehindSetting();
    SenderDescends();
    EmptyIsPrefix(SENDER, ZERO_TIME, {A3, A5, B1});
    SinglesArePaged(Agenda(SENDER, ZERO_TIME));
    AscentAtSingles(Agenda(SENDER, ZERO_TIME));
    PagedExact(map[], SENDER, ZERO_TIME, {A3, A5, B1}, 1);
  }

  /** With a limit of two the same sender is caught up with. */
  lemma TwoAtATimeSuffice()
    ensures Keyed(SENDER) && Keyed(map[]) && CatchesUpFrom(map[], SENDER, ZERO_TIME, 2)
  {
    hide Item.Admissible, NewerThan, PullTimesWith, Agenda, KeyLess, Traceable, HoldsPrefix, CatchesUpFrom;
    BehindSetting();
    EmptyIsPrefix(SENDER, ZERO_TIME, {A3, A5, B1});
    SenderHasTwo();
    PrefixStartsExact(SENDER, ZERO_TIME, {A3, A5, B1}, 2);
  }

  lemma SenderHasTwo()
    requires Keyed(SENDER)
    ensures |Agenda(SENDER, ZERO_TIME)| == 2
  {
    hide Item.Admissible, NewerThan, Agenda, KeyLess;
    SampleNames();
    EnumerationLength(Agenda(SENDER, ZERO_TIME), Live(SENDER, ZERO_TIME));
    assert Live(SENDER, ZERO_TIME).Keys == {KeyOf("a"), KeyOf("b")};
    assert |{KeyOf("a"), KeyOf("b")}| == 2;
  }

  lemma EntitiesInOrder(s: Store, e: nat, f: nat)
    requires Keyed(s) && e < |Agenda(s, ZERO_TIME)| && f < |Agenda(s, ZERO_TIME)|
    requires Agenda(s, ZERO_TIME)[e].SummaryKey() == KeyOf("a")
    requires Agenda(s, ZERO_TIME)[f].SummaryKey() == KeyOf("b")
    ensures e < f
  {
    hide Item.Admissible, Agenda;
    assert "a"[0] == 'a' && "b"[0] == 'b';
    assert KeyLess(KeyOf("a"), KeyOf("b")) by { assert Text.Less("a", "b"); }
    KeyLessTotal(KeyOf("a"), KeyOf("b"));
  }

  // ---- Ties ----

  /** A valid summary without a sequence, versioned by its hybrid time. */
  function HybridSample(operation: string): Item {
    Item(Sample("a", 0, operation, 100).envelope.(hybrid := Some(HybridTime(1, 0))), [0])
  }

  /** Two valid items of one key, with one hybrid time and different operations, tie:
      whichever arrives first stays. */
  lemma HybridTie()
    ensures var x, y := HybridSample("p"), HybridSample("q");
            Rivals(x, y) && !OrderFree([x, y])
  {
    hide Item.Admissible, OrderFree;
    var x, y := HybridSample("p"), HybridSample("q");
    HybridSampleIsAdmissible("p");
    HybridSampleIsAdmissible("q");
    assert "p"[0] != "q"[0];
    assert Rivals(x, y) && Unsurpassed(x, [x, y]);
    assert x in [x, y] && y in [x, y];
    UpsertIsJoin([x, y]);
  }

  lemma HybridSampleIsAdmissible(operation: string)
    requires operation != "" && !Text.IsSpace(operation[0])
    ensures HybridSample(operation).Admissible()
  {
    SampleIsAdmissible("a", 1, operation, 100);
  }

  // ---- Digests that say too little ----

  lemma SameText(h: string)
    ensures Fields("a", "g", "b\0g\0c", h).Line() == Fields("a\0g\0b", "g", "c", h).Line()
  {
    hide Fields.Line;
    LineIs(Fields("a", "g", "b\0g\0c", h));
    LineIs(Fields("a\0g\0b", "g", "c", h));
  }

  lemma SameLines(fs: seq<Fields>, gs: seq<Fields>)
    requires Lines(fs) == Lines(gs)
    ensures Preimage(fs) == Preimage(gs)
  {
  }

  /** Two valid items of one cell, of different entities, whose cells look alike: a
      NUL in an identifier moves text from one field to the next. */
  lemma NulCollision()
    ensures var x, y := Sample("a", 1, "b\0g\0c", 100), Sample("a\0g\0b", 1, "c", 100);
            && x.Admissible() && y.Admissible()
            && x.Cell() == y.Cell() && x.SummaryKey() != y.SummaryKey()
            && HashCell([x]) == HashCell([y])
  {
    hide Item.Admissible, Fields.Line, Preimage, HashBytes;
    var x, y := Sample("a", 1, "b\0g\0c", 100), Sample("a\0g\0b", 1, "c", 100);
    SampleIsAdmissible("a", 1, "b\0g\0c", 100);
    SampleIsAdmissible("a\0g\0b", 1, "c", 100);
    assert |x.envelope.entity| != |y.envelope.entity|;
    SameText(HashBytes([0]));
    assert Lines(AllFields([x])) == Lines(AllFields([y]));
    SameLines(AllFields([x]), AllFields([y]));
  }

  // ---- Cells of one name ----

  const SLASHED := CellID("n/1", "v", "g")
  const SLASHED_TOO := CellID("n", "1/v", "g")

  function SampleOf(cell: CellID): Item {
    var x := Sample("a", 1, "o", 100);
    x.(envelope := x.envelope.(cell := cell))
  }

  const TWO_CELLS: Store := map[
    Key(SLASHED, "a") := SampleOf(SLASHED),
    Key(SLASHED_TOO, "a") := SampleOf(SLASHED_TOO)]

  /** Two cells of valid items share a name, so their watermarks come in either order. */
  lemma SlashesMixOrder()
    ensures Keyed(TWO_CELLS) && !OnePresentation(TWO_CELLS)
  {
    hide OnePresentation;
    assert |SLASHED.node| != |SLASHED_TOO.node|;
    SlashedIsAdmissible(SLASHED);
    SlashedIsAdmissible(SLASHED_TOO);
    assert SLASHED.String() == "n/1/v/g" == SLASHED_TOO.String();
    assert Key(SLASHED, "a") in TWO_CELLS && Key(SLASHED_TOO, "a") in TWO_CELLS;
    EntryOrderExact(TWO_CELLS);
  }

  lemma SlashedIsAdmissible(cell: CellID)
    requires cell == SLASHED || cell == SLASHED_TOO
    ensures SampleOf(cell).Admissible()
  {
    SampleIsAdmissible("a", 1, "o", 100);
    assert !Text.IsSpace(cell.node[0]) && !Text.IsSpace(cell.vehicle[0]) && !Text.IsSpace(cell.group[0]);
  }
}
