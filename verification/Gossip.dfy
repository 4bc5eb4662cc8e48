/** Gossip among any number of replicas: every schedule settles, and settled
    replicas agree on the newest of what they started with. */
module Gossip {
  import opened Items
  import opened VersionOrder
  import opened SummaryStore
  import opened Watermarks
  import opened Pull
  import opened CatchUp

  type Nodes = seq<Store>

  // ---- Hypotheses ----

  /** Different items of one key never tie. */
  ghost predicate Untied(universe: set<Item>) {
    forall x, y :: x in universe && y in universe && x.SummaryKey() == y.SummaryKey() && x != y
      ==> Newer(x, y) || Newer(y, x)
  }

  /** A newer item of a key does not expire before an older one. */
  ghost predicate ExpiryOrdered(universe: set<Item>, now: Time) {
    now == ZERO_TIME
    || forall x, y :: x in universe && y in universe && x.SummaryKey() == y.SummaryKey() && Newer(x, y)
         ==> x.envelope.expiresAt >= y.envelope.expiresAt
  }

  ghost predicate Coherent(universe: set<Item>, now: Time) {
    Traceable(universe) && Untied(universe) && ExpiryOrdered(universe, now)
  }

  ghost predicate World(nodes: Nodes, universe: set<Item>) {
    forall i :: 0 <= i < |nodes| ==> Keyed(nodes[i]) && Drawn(nodes[i], universe)
  }

  // ---- Dominance ----

  /** Every live item of s is matched or surpassed in r. */
  ghost predicate Dominates(r: Store, s: Store, now: Time) {
    forall k :: k in Live(s, now) ==> k in r && !Newer(s[k], r[k])
  }

  /** What matches or surpasses a live item is live. */
  lemma AtLeastAsNewIsLive(universe: set<Item>, now: Time, x: Item, y: Item)
    requires Coherent(universe, now) && x in universe && y in universe
    requires x.SummaryKey() == y.SummaryKey() && !Newer(y, x) && IsLive(y, now)
    ensures IsLive(x, now)
  {
  }

  lemma NeverStuck(r: Store, s: Store, now: Time, universe: set<Item>, c: CellID)
    requires Paired(r, s, universe) && Coherent(universe, now)
    ensures !Stuck(r, s, now, c)
  {
    hide Item.Admissible, NewerThan, IsLive, Top, Marks, Selection, LiveCell, Coherent;
    if Stuck(r, s, now, c) {
      var t := Top(LiveCell(s, now, c));
      TopEntry(s, now, c);
      var k := t.SummaryKey();
      EntryInCell(s, now, k);
      NewerAsymmetric(VersionOf(t), VersionOf(t));
      assert !Missing(r, Live(s, now), k);
      AtLeastAsNewIsLive(universe, now, r[k], t);
      EntryInCell(r, now, k);
      NotNewerTransitive(VersionOf(t), VersionOf(r[k]), VersionOf(Top(LiveCell(r, now, c))));
    }
  }

  /** In a coherent world two pulls leave per key the newest of both. */
  lemma TwoPullsSuffice(r: Store, s: Store, now: Time, universe: set<Item>)
    requires Paired(r, s, universe) && Coherent(universe, now)
    ensures PullTimes(r, s, now, 2) == Complete(r, s, now)
  {
    hide Item.Admissible, NewerThan, Traceable, Stuck, PullTimes, Complete, Untied, ExpiryOrdered;
    TwoPullsExact(r, s, now, universe);
    forall c ensures !Stuck(r, s, now, c) { NeverStuck(r, s, now, universe, c); }
  }

  /** A pull that changes nothing proves that the receiver dominates the sender. */
  lemma UnchangedDominates(r: Store, s: Store, now: Time, universe: set<Item>)
    requires Paired(r, s, universe) && Coherent(universe, now) && Pulled(r, s, now) == r
    ensures Dominates(r, s, now)
  {
    hide Item.Admissible, NewerThan, IsLive, Coherent, Pulled, Traceable;
    TwoPulls(r, s, now);
    TwoPullsSuffice(r, s, now, universe);
    var live := Live(s, now);
    forall k | k in live ensures k in r && !Newer(s[k], r[k]) {
      assert k in Merge(r, live) && Merge(r, live)[k] == r[k];
      NewerAsymmetric(VersionOf(live[k]), VersionOf(live[k]));
    }
  }

  lemma DominatesTransitive(r: Store, s: Store, t: Store, now: Time, universe: set<Item>)
    requires Paired(r, s, universe) && Paired(s, t, universe) && Coherent(universe, now)
    requires Dominates(r, s, now) && Dominates(s, t, now)
    ensures Dominates(r, t, now)
  {
    hide Item.Admissible, NewerThan, IsLive, Coherent, Traceable;
    forall k | k in Live(t, now) ensures k in r && !Newer(t[k], r[k]) {
      AtLeastAsNewIsLive(universe, now, s[k], t[k]);
      assert k in Live(s, now);
      NotNewerTransitive(VersionOf(t[k]), VersionOf(s[k]), VersionOf(r[k]));
    }
  }

  lemma MutualDominance(r: Store, s: Store, now: Time, universe: set<Item>)
    requires Paired(r, s, universe) && Coherent(universe, now)
    requires Dominates(r, s, now) && Dominates(s, r, now)
    ensures Live(r, now) == Live(s, now)
  {
    hide Item.Admissible, NewerThan, IsLive, Traceable, ExpiryOrdered, Untied, Dominates, Keyed, Drawn;
    HalfOfMutual(r, s, now, universe);
    HalfOfMutual(s, r, now, universe);
  }

  lemma HalfOfMutual(r: Store, s: Store, now: Time, universe: set<Item>)
    requires Paired(r, s, universe) && Coherent(universe, now)
    requires Dominates(r, s, now) && Dominates(s, r, now)
    ensures forall k :: k in Live(s, now) ==> k in Live(r, now) && Live(r, now)[k] == Live(s, now)[k]
  {
    hide Item.Admissible, NewerThan, IsLive, Traceable, ExpiryOrdered;
    forall k | k in Live(s, now) ensures k in Live(r, now) && r[k] == s[k] {
      AtLeastAsNewIsLive(universe, now, r[k], s[k]);
      assert k in Live(r, now);
    }
  }

  // ---- Runs ----

  /** The receiver pulls from the sender. */
  datatype Edge = Edge(receiver: nat, sender: nat)

  ghost predicate AllKeyed(nodes: Nodes) {
    forall i :: 0 <= i < |nodes| ==> Keyed(nodes[i])
  }

  predicate Within(edges: seq<Edge>, n: nat) {
    forall i :: 0 <= i < |edges| ==> edges[i].receiver < n && edges[i].sender < n
  }

  ghost function Step(nodes: Nodes, e: Edge, now: Time): (nodes': Nodes)
    requires AllKeyed(nodes) && e.receiver < |nodes| && e.sender < |nodes|
    ensures AllKeyed(nodes') && |nodes'| == |nodes|
  {
    PulledMerges(nodes[e.receiver], nodes[e.sender], now);
    nodes[e.receiver := Pulled(nodes[e.receiver], nodes[e.sender], now)]
  }

  ghost function Run(nodes: Nodes, edges: seq<Edge>, now: Time): (nodes': Nodes)
    requires AllKeyed(nodes) && Within(edges, |nodes|)
    ensures AllKeyed(nodes') && |nodes'| == |nodes|
    decreases edges
  {
    if edges == [] then nodes else Run(Step(nodes, edges[0], now), edges[1..], now)
  }

  /** How many of the pulls of a run change a store. */
  ghost function Changes(nodes: Nodes, edges: seq<Edge>, now: Time): nat
    requires AllKeyed(nodes) && Within(edges, |nodes|)
    decreases edges
  {
    if edges == [] then 0
    else
      var next := Step(nodes, edges[0], now);
      (if next != nodes then 1 else 0) + Changes(next, edges[1..], now)
  }

  // ---- The measure ----

  ghost predicate Behind(m: Store, x: Item) {
    x.SummaryKey() !in m || Newer(x, m[x.SummaryKey()])
  }

  /** How many items of the universe would still be news to m. */
  ghost function Deficit(m: Store, universe: set<Item>): nat {
    |set x | x in universe && Behind(m, x)|
  }

  ghost function TotalDeficit(nodes: Nodes, universe: set<Item>): nat {
    if nodes == [] then 0 else Deficit(nodes[0], universe) + TotalDeficit(nodes[1..], universe)
  }

  lemma {:induction false} SubsetSize<T>(a: set<T>, b: set<T>)
    requires a <= b
    ensures |a| <= |b| && (a != b ==> |a| < |b|)
  {
    assert b == a + (b - a);
    assert |b| == |a| + |b - a|;
  }

  lemma DeficitFalls(m: Store, m': Store, universe: set<Item>)
    requires Advances(m, m') && Keyed(m') && Drawn(m', universe)
    ensures Deficit(m', universe) <= Deficit(m, universe)
    ensures m' != m ==> Deficit(m', universe) < Deficit(m, universe)
  {
    hide Item.Admissible, NewerThan;
    var before := set x | x in universe && Behind(m, x);
    var after := set x | x in universe && Behind(m', x);
    forall x | x in after ensures x in before {
      if !Behind(m, x) { StaysCovered(m, m', x); }
    }
    SubsetSize(after, before);
    if m' != m {
      var k :| k in m' && (k !in m || m[k] != m'[k]);
      var x := m'[k];
      NewerAsymmetric(VersionOf(x), VersionOf(x));
      assert x in before && x !in after;
    }
  }

  lemma {:induction false} TotalAfter(nodes: Nodes, i: nat, m: Store, universe: set<Item>)
    requires i < |nodes|
    ensures TotalDeficit(nodes[i := m], universe)
         == TotalDeficit(nodes, universe) - Deficit(nodes[i], universe) + Deficit(m, universe)
  {
    hide Deficit;
    var after := nodes[i := m];
    if i == 0 {
      assert after[1..] == nodes[1..];
    } else {
      TotalAfter(nodes[1..], i - 1, m, universe);
      assert after[1..] == nodes[1..][i - 1 := m];
    }
  }

  lemma {:induction false} TotalBound(nodes: Nodes, universe: set<Item>)
    ensures TotalDeficit(nodes, universe) <= |nodes| * |universe|
  {
    if nodes != [] {
      TotalBound(nodes[1..], universe);
      SubsetSize((set x | x in universe && Behind(nodes[0], x)), universe);
    }
  }

  lemma WorldWith(nodes: Nodes, i: nat, m: Store, universe: set<Item>)
    requires World(nodes, universe) && i < |nodes| && Keyed(m) && Drawn(m, universe)
    ensures World(nodes[i := m], universe)
  {
  }

  /** What a pull does to the receiver's store alone. */
  lemma PullPays(r: Store, s: Store, now: Time, universe: set<Item>)
    requires Paired(r, s, universe)
    ensures var m := Pulled(r, s, now);
            && Keyed(m) && Drawn(m, universe)
            && Deficit(m, universe) <= Deficit(r, universe)
            && (m != r ==> Deficit(m, universe) < Deficit(r, universe))
  {
    hide Item.Admissible, NewerThan, Traceable, Pulled, Deficit, IsLive, Keyed, Drawn, Advances;
    PullKeepsPaired(r, s, now, universe);
    PulledMerges(r, s, now);
    DeficitFalls(r, Pulled(r, s, now), universe);
  }

  lemma WorldStep(nodes: Nodes, e: Edge, now: Time, universe: set<Item>)
    requires World(nodes, universe) && AllKeyed(nodes) && Traceable(universe)
    requires e.receiver < |nodes| && e.sender < |nodes|
    ensures World(Step(nodes, e, now), universe)
    ensures TotalDeficit(Step(nodes, e, now), universe) <= TotalDeficit(nodes, universe)
    ensures Step(nodes, e, now) != nodes ==>
      TotalDeficit(Step(nodes, e, now), universe) < TotalDeficit(nodes, universe)
  {
    hide Traceable, Pulled, Deficit, TotalDeficit, Keyed, Drawn;
    var r, s := nodes[e.receiver], nodes[e.sender];
    var m := Pulled(r, s, now);
    PullPays(r, s, now, universe);
    WorldWith(nodes, e.receiver, m, universe);
    TotalAfter(nodes, e.receiver, m, universe);
    if m == r { assert nodes[e.receiver := m] == nodes; }
  }

  /** No run, of whatever length and order, has more changing pulls than there
      are nodes times items. */
  lemma ChangesAreBounded(nodes: Nodes, edges: seq<Edge>, now: Time, universe: set<Item>)
    requires World(nodes, universe) && AllKeyed(nodes) && Traceable(universe)
    requires Within(edges, |nodes|)
    ensures Changes(nodes, edges, now) <= |nodes| * |universe|
  {
    hide *;
    TotalBound(nodes, universe);
    ChangesPayDeficit(nodes, edges, now, universe);
  }

  lemma {:induction false} ChangesPayDeficit(nodes: Nodes, edges: seq<Edge>, now: Time,
                                             universe: set<Item>)
    requires World(nodes, universe) && AllKeyed(nodes) && Traceable(universe)
    requires Within(edges, |nodes|)
    ensures World(Run(nodes, edges, now), universe)
    ensures Changes(nodes, edges, now) + TotalDeficit(Run(nodes, edges, now), universe)
         <= TotalDeficit(nodes, universe)
    decreases edges
  {
    hide Item.Admissible, NewerThan, Traceable, World, TotalDeficit, Step, AllKeyed;
    if edges != [] {
      WorldStep(nodes, edges[0], now, universe);
      ChangesPayDeficit(Step(nodes, edges[0], now), edges[1..], now, universe);
    }
  }

  // ---- Quiet rounds ----

  ghost predicate Path(edges: seq<Edge>, p: seq<nat>) {
    p != [] && forall i :: 0 <= i < |p| - 1 ==> Edge(p[i], p[i + 1]) in edges
  }

  /** Every node pulls, directly or through others, from every other. */
  ghost predicate StronglyConnected(edges: seq<Edge>, n: nat) {
    forall i, j :: 0 <= i < n && 0 <= j < n ==> Connected(edges, i, j)
  }

  ghost predicate Connected(edges: seq<Edge>, i: nat, j: nat) {
    exists p :: Path(edges, p) && p[0] == i && p[|p| - 1] == j
  }

  /** No pull of the round changes anything. */
  ghost predicate Quiet(nodes: Nodes, edges: seq<Edge>, now: Time)
    requires AllKeyed(nodes) && Within(edges, |nodes|)
  {
    forall e :: e in edges ==> Step(nodes, e, now) == nodes
  }

  ghost predicate Agreed(nodes: Nodes, now: Time) {
    forall i, j :: 0 <= i < |nodes| && 0 <= j < |nodes| ==> Live(nodes[i], now) == Live(nodes[j], now)
  }

  lemma {:induction false} UnchangedRunIsQuiet(nodes: Nodes, edges: seq<Edge>, now: Time)
    requires AllKeyed(nodes) && Within(edges, |nodes|) && Changes(nodes, edges, now) == 0
    ensures Quiet(nodes, edges, now) && Run(nodes, edges, now) == nodes
    decreases edges
  {
    hide Step, AllKeyed;
    if edges != [] {
      UnchangedRunIsQuiet(nodes, edges[1..], now);
      assert edges == [edges[0]] + edges[1..];
    }
  }

  lemma QuietEdgeDominates(nodes: Nodes, e: Edge, now: Time, universe: set<Item>)
    requires World(nodes, universe) && AllKeyed(nodes) && Coherent(universe, now)
    requires e.receiver < |nodes| && e.sender < |nodes| && Step(nodes, e, now) == nodes
    ensures Dominates(nodes[e.receiver], nodes[e.sender], now)
  {
    hide Item.Admissible, NewerThan, Traceable, Untied, ExpiryOrdered, Pulled;
    UnchangedDominates(nodes[e.receiver], nodes[e.sender], now, universe);
  }

  lemma {:induction false} PathDominates(nodes: Nodes, edges: seq<Edge>, p: seq<nat>, now: Time,
                                         universe: set<Item>)
    requires World(nodes, universe) && AllKeyed(nodes) && Coherent(universe, now)
    requires Within(edges, |nodes|) && Quiet(nodes, edges, now)
    requires Path(edges, p) && p[0] < |nodes| && p[|p| - 1] < |nodes|
    ensures Dominates(nodes[p[0]], nodes[p[|p| - 1]], now)
    decreases p
  {
    hide Item.Admissible, NewerThan, Traceable, Untied, ExpiryOrdered, Step, Dominates;
    if |p| == 1 {
      SelfDominates(nodes[p[0]], now);
    } else {
      var e := Edge(p[0], p[1]);
      assert e in edges;
      QuietEdgeDominates(nodes, e, now, universe);
      PathDominates(nodes, edges, p[1..], now, universe);
      DominatesTransitive(nodes[p[0]], nodes[p[1]], nodes[p[|p| - 1]], now, universe);
    }
  }

  lemma SelfDominates(r: Store, now: Time)
    ensures Dominates(r, r, now)
  {
    hide NewerThan, IsLive;
    forall k | k in r ensures !Newer(r[k], r[k]) { NewerAsymmetric(VersionOf(r[k]), VersionOf(r[k])); }
  }

  /** A quiet round over a strongly connected graph means agreement. */
  lemma QuietMeansAgreed(nodes: Nodes, edges: seq<Edge>, now: Time, universe: set<Item>)
    requires World(nodes, universe) && AllKeyed(nodes) && Coherent(universe, now)
    requires Within(edges, |nodes|) && Quiet(nodes, edges, now)
    requires StronglyConnected(edges, |nodes|)
    ensures Agreed(nodes, now)
  {
    hide Item.Admissible, NewerThan, Traceable, Untied, ExpiryOrdered, Step, Dominates, Live, Quiet;
    forall i, j | 0 <= i < |nodes| && 0 <= j < |nodes|
      ensures Live(nodes[i], now) == Live(nodes[j], now)
    {
      assert Connected(edges, i, j) && Connected(edges, j, i);
      var p :| Path(edges, p) && p[0] == i && p[|p| - 1] == j;
      var q :| Path(edges, q) && q[0] == j && q[|q| - 1] == i;
      PathDominates(nodes, edges, p, now, universe);
      PathDominates(nodes, edges, q, now, universe);
      MutualDominance(nodes[i], nodes[j], now, universe);
    }
  }

  /** Between stores with the same live items a pull changes nothing. */
  lemma AgreedPull(r: Store, s: Store, now: Time, universe: set<Item>)
    requires Paired(r, s, universe) && Live(r, now) == Live(s, now)
    ensures Pulled(r, s, now) == r
  {
    hide Item.Admissible, NewerThan, Traceable, IsLive, Marks, Selection, Top;
    PulledMerges(r, s, now);
    var live := Live(s, now);
    LiveIsKeyed(s, now, universe);
    SelectionWithin(live, Marks(live));
    forall k ensures k !in Chosen(r, s, now) {
      if k in live { SelectionAt(live, live, universe, k); }
    }
    assert Chosen(r, s, now) == map[];
  }

  lemma {:induction false} AgreedStays(nodes: Nodes, edges: seq<Edge>, now: Time, universe: set<Item>)
    requires World(nodes, universe) && AllKeyed(nodes) && Coherent(universe, now)
    requires Within(edges, |nodes|) && Agreed(nodes, now)
    ensures Run(nodes, edges, now) == nodes
    decreases edges
  {
    hide Item.Admissible, NewerThan, Traceable, Untied, ExpiryOrdered, Pulled, Live;
    if edges != [] {
      AgreedPull(nodes[edges[0].receiver], nodes[edges[0].sender], now, universe);
      assert Step(nodes, edges[0], now) == nodes;
      AgreedStays(nodes, edges[1..], now, universe);
    }
  }

  // ---- Convergence ----

  ghost predicate ConnectedRounds(rounds: seq<seq<Edge>>, n: nat) {
    forall i :: 0 <= i < |rounds| ==> Within(rounds[i], n) && StronglyConnected(rounds[i], n)
  }

  ghost function RunRounds(nodes: Nodes, rounds: seq<seq<Edge>>, now: Time): (nodes': Nodes)
    requires AllKeyed(nodes) && ConnectedRounds(rounds, |nodes|)
    ensures AllKeyed(nodes') && |nodes'| == |nodes|
    decreases rounds
  {
    if rounds == [] then nodes else RunRounds(Run(nodes, rounds[0], now), rounds[1..], now)
  }

  /** Where a run leads: nothing goes back, and nothing is invented. */
  ghost predicate Leads(nodes: Nodes, nodes': Nodes) {
    && |nodes| == |nodes'|
    && (forall i :: 0 <= i < |nodes| ==> Advances(nodes[i], nodes'[i]))
    && (forall i, k :: 0 <= i < |nodes'| && k in nodes'[i] ==> HeldBy(nodes, k, nodes'[i][k]))
  }

  ghost predicate HeldBy(nodes: Nodes, k: Key, x: Item) {
    exists j :: 0 <= j < |nodes| && k in nodes[j] && nodes[j][k] == x
  }

  lemma LeadsReflexive(nodes: Nodes)
    ensures Leads(nodes, nodes)
  {
  }

  lemma LeadsTransitive(a: Nodes, b: Nodes, c: Nodes)
    requires Leads(a, b) && Leads(b, c)
    ensures Leads(a, c)
  {
    hide NewerThan, Advances;
    forall i | 0 <= i < |a| ensures Advances(a[i], c[i]) { AdvancesTransitive(a[i], b[i], c[i]); }
    forall i, k | 0 <= i < |c| && k in c[i] ensures HeldBy(a, k, c[i][k]) {
      var j :| 0 <= j < |b| && k in b[j] && b[j][k] == c[i][k];
      assert HeldBy(a, k, b[j][k]);
    }
  }

  lemma StepLeads(nodes: Nodes, e: Edge, now: Time, universe: set<Item>)
    requires World(nodes, universe) && AllKeyed(nodes) && Traceable(universe)
    requires e.receiver < |nodes| && e.sender < |nodes|
    ensures Leads(nodes, Step(nodes, e, now))
  {
    hide Item.Admissible, NewerThan, Traceable, Pulled, Chosen, Missing, HeldBy, Advances;
    var r, s, nodes' := nodes[e.receiver], nodes[e.sender], Step(nodes, e, now);
    PulledMerges(r, s, now);
    forall i | 0 <= i < |nodes| ensures Advances(nodes[i], nodes'[i]) {
      if i != e.receiver { SelfAdvances(nodes[i]); }
    }
    forall i, k | 0 <= i < |nodes'| && k in nodes'[i] ensures HeldBy(nodes, k, nodes'[i][k]) {
      if i == e.receiver {
        PulledAt(r, s, now, universe, k);
        HeldHere(nodes, e.receiver, k);
        HeldHere(nodes, e.sender, k);
        MissingIsHeld(r, s, now, k);
      } else {
        HeldHere(nodes, i, k);
      }
    }
  }

  lemma SelfAdvances(m: Store)
    ensures Advances(m, m)
  {
  }

  lemma HeldHere(nodes: Nodes, j: nat, k: Key)
    requires j < |nodes|
    ensures k in nodes[j] ==> HeldBy(nodes, k, nodes[j][k])
  {
  }

  lemma MissingIsHeld(r: Store, s: Store, now: Time, k: Key)
    ensures Missing(r, Live(s, now), k) ==> k in s && Live(s, now)[k] == s[k]
  {
  }

  lemma {:induction false} RunLeads(nodes: Nodes, edges: seq<Edge>, now: Time, universe: set<Item>)
    requires World(nodes, universe) && AllKeyed(nodes) && Traceable(universe)
    requires Within(edges, |nodes|)
    ensures Leads(nodes, Run(nodes, edges, now))
    decreases edges
  {
    hide Item.Admissible, NewerThan, Traceable, Step, World, Leads;
    if edges == [] {
      LeadsReflexive(nodes);
    } else {
      var next := Step(nodes, edges[0], now);
      StepLeads(nodes, edges[0], now, universe);
      WorldStep(nodes, edges[0], now, universe);
      RunLeads(next, edges[1..], now, universe);
      LeadsTransitive(nodes, next, Run(nodes, edges, now));
    }
  }

  /** Every changing round pays, so one more round than the deficit settles. */
  lemma {:induction false} RoundsAgree(nodes: Nodes, rounds: seq<seq<Edge>>, now: Time,
                                       universe: set<Item>)
    requires World(nodes, universe) && AllKeyed(nodes) && Coherent(universe, now)
    requires ConnectedRounds(rounds, |nodes|)
    requires |rounds| > TotalDeficit(nodes, universe)
    ensures Agreed(RunRounds(nodes, rounds, now), now)
    decreases rounds
  {
    hide Item.Admissible, NewerThan, Traceable, Untied, ExpiryOrdered, World, Run, Agreed, AllKeyed,
         TotalDeficit, StronglyConnected, Within, Changes, Quiet;
    var round, next := rounds[0], Run(nodes, rounds[0], now);
    ChangesPayDeficit(nodes, round, now, universe);
    if Changes(nodes, round, now) == 0 {
      UnchangedRunIsQuiet(nodes, round, now);
      QuietMeansAgreed(nodes, round, now, universe);
      AgreedRounds(nodes, rounds, now, universe);
    } else {
      RoundsAgree(next, rounds[1..], now, universe);
    }
  }

  lemma {:induction false} AgreedRounds(nodes: Nodes, rounds: seq<seq<Edge>>, now: Time,
                                        universe: set<Item>)
    requires World(nodes, universe) && AllKeyed(nodes) && Coherent(universe, now)
    requires ConnectedRounds(rounds, |nodes|) && Agreed(nodes, now)
    ensures RunRounds(nodes, rounds, now) == nodes
    decreases rounds
  {
    hide Item.Admissible, NewerThan, Traceable, Untied, ExpiryOrdered, World, Run, Agreed, AllKeyed,
         StronglyConnected, Within;
    if rounds != [] {
      AgreedStays(nodes, rounds[0], now, universe);
      AgreedRounds(nodes, rounds[1..], now, universe);
    }
  }

  lemma {:induction false} RoundsLead(nodes: Nodes, rounds: seq<seq<Edge>>, now: Time,
                                      universe: set<Item>)
    requires World(nodes, universe) && AllKeyed(nodes) && Traceable(universe)
    requires ConnectedRounds(rounds, |nodes|)
    ensures Leads(nodes, RunRounds(nodes, rounds, now))
    ensures World(RunRounds(nodes, rounds, now), universe)
    decreases rounds
  {
    hide Item.Admissible, NewerThan, Traceable, World, Run, AllKeyed, Leads, StronglyConnected, Within;
    if rounds == [] {
      LeadsReflexive(nodes);
    } else {
      var next := Run(nodes, rounds[0], now);
      RunLeads(nodes, rounds[0], now, universe);
      ChangesPayDeficit(nodes, rounds[0], now, universe);
      RoundsLead(next, rounds[1..], now, universe);
      LeadsTransitive(nodes, next, RunRounds(nodes, rounds, now));
    }
  }

  /** A live map that holds, for each key live at some node, the newest such item. */
  ghost predicate NewestOfAll(live: Store, nodes: Nodes, now: Time) {
    && (forall k :: k in live ==>
          exists j :: 0 <= j < |nodes| && k in Live(nodes[j], now) && nodes[j][k] == live[k])
    && (forall j, k :: 0 <= j < |nodes| && k in Live(nodes[j], now) ==>
          k in live && !Newer(nodes[j][k], live[k]))
  }

  lemma AgreementIsNewest(nodes: Nodes, nodes': Nodes, i: nat, now: Time, universe: set<Item>)
    requires World(nodes, universe) && World(nodes', universe) && Coherent(universe, now)
    requires Leads(nodes, nodes') && Agreed(nodes', now) && |nodes| == |nodes'| && i < |nodes|
    ensures NewestOfAll(Live(nodes'[i], now), nodes, now)
  {
    hide Item.Admissible, NewerThan, Traceable, Untied, ExpiryOrdered, IsLive, World, Leads, Agreed;
    var live := Live(nodes'[i], now);
    forall k | k in live
      ensures exists j :: 0 <= j < |nodes| && k in Live(nodes[j], now) && nodes[j][k] == live[k]
    {
      AgreedItemIsInitial(nodes, nodes', i, k, now);
    }
    forall j, k | 0 <= j < |nodes| && k in Live(nodes[j], now)
      ensures k in live && !Newer(nodes[j][k], live[k])
    {
      CoveredAtHome(nodes, nodes', j, k, now, universe);
      SameLive(nodes', i, j, k, now);
    }
  }

  lemma AgreedItemIsInitial(nodes: Nodes, nodes': Nodes, i: nat, k: Key, now: Time)
    requires Leads(nodes, nodes') && i < |nodes'| && k in Live(nodes'[i], now)
    ensures exists j :: 0 <= j < |nodes| && k in Live(nodes[j], now)
                        && nodes[j][k] == Live(nodes'[i], now)[k]
  {
    hide Item.Admissible, NewerThan, IsLive, Advances;
    assert HeldBy(nodes, k, nodes'[i][k]);
    var j :| 0 <= j < |nodes| && k in nodes[j] && nodes[j][k] == nodes'[i][k];
    assert k in Live(nodes[j], now);
  }

  lemma SameLive(nodes: Nodes, i: nat, j: nat, k: Key, now: Time)
    requires Agreed(nodes, now) && i < |nodes| && j < |nodes|
    requires k in nodes[j] && IsLive(nodes[j][k], now)
    ensures k in Live(nodes[i], now) && Live(nodes[i], now)[k] == nodes[j][k]
  {
  }

  lemma CoveredAtHome(nodes: Nodes, nodes': Nodes, j: nat, k: Key, now: Time, universe: set<Item>)
    requires World(nodes, universe) && World(nodes', universe) && Coherent(universe, now)
    requires Leads(nodes, nodes') && j < |nodes| && k in nodes[j] && IsLive(nodes[j][k], now)
    ensures k in nodes'[j] && IsLive(nodes'[j][k], now) && !Newer(nodes[j][k], nodes'[j][k])
  {
    hide Item.Admissible, NewerThan, Traceable, Untied, ExpiryOrdered, IsLive, HeldBy;
    assert Advances(nodes[j], nodes'[j]);
    NewerAsymmetric(VersionOf(nodes'[j][k]), VersionOf(nodes[j][k]));
    NewerAsymmetric(VersionOf(nodes[j][k]), VersionOf(nodes[j][k]));
    AtLeastAsNewIsLive(universe, now, nodes'[j][k], nodes[j][k]);
  }

  /** With no new publishes, a fixed now and no item limit, any sequence of more
      than nodes-times-items rounds, each over a strongly connected graph of its
      own, ends with every node holding exactly the newest initial live items. */
  lemma GossipConverges(nodes: Nodes, rounds: seq<seq<Edge>>, now: Time, universe: set<Item>)
    requires World(nodes, universe) && AllKeyed(nodes) && Coherent(universe, now)
    requires ConnectedRounds(rounds, |nodes|)
    requires |rounds| > |nodes| * |universe|
    ensures var final := RunRounds(nodes, rounds, now);
            && Agreed(final, now)
            && forall i :: 0 <= i < |final| ==> NewestOfAll(Live(final[i], now), nodes, now)
  {
    hide Item.Admissible, NewerThan, Traceable, Untied, ExpiryOrdered, World, Run, RunRounds, Agreed,
         AllKeyed, ConnectedRounds, TotalDeficit, NewestOfAll, Live;
    var final := RunRounds(nodes, rounds, now);
    TotalBound(nodes, universe);
    RoundsAgree(nodes, rounds, now, universe);
    RoundsLead(nodes, rounds, now, universe);
    forall i | 0 <= i < |final| ensures NewestOfAll(Live(final[i], now), nodes, now) {
      AgreementIsNewest(nodes, final, i, now, universe);
    }
  }
}
