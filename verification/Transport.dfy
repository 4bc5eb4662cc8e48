/** Pulling over the transport, and the gossip schedule of the mesh runtimes. */
module Transport {
  import opened Items
  import opened SummaryStore
  import opened ItemOrder
  import opened Watermarks
  import opened SummaryIndexes
  import WatermarkLaws
  import opened Pull
  import opened Gossip

  datatype PullResult = PullResult(diff: Diff, applied: nat)

  /** Applies the items of a response in order and stops at the first bad one. */
  method ApplyItems(index: SummaryIndex, items: seq<Item>) returns (applied: nat, ok: bool)
    requires index.Valid()
    modifies index
    ensures index.Valid()
    ensures applied <= |items|
    ensures forall i :: 0 <= i < applied ==> items[i].Admissible()
    ensures ok <==> applied == |items|
    ensures !ok ==> !items[applied].Admissible()
    ensures index.items == PutAll(old(index.items), items[..applied])
  {
    hide Item.Admissible, Put, Keyed;
    applied := 0;
    while applied < |items|
      invariant applied <= |items| && index.Valid()
      invariant forall i :: 0 <= i < applied ==> items[i].Admissible()
      invariant index.items == PutAll(old(index.items), items[..applied])
    {
      var before := index.items;
      var status := index.Upsert(items[applied]);
      assert items[..applied + 1] == items[..applied] + [items[applied]];
      PutAllMore(old(index.items), items[..applied], items[applied]);
      if !status.Accepted? {
        BadItemIsIgnored(before, items[applied]);
        return applied, false;
      }
      applied := applied + 1;
    }
    assert items[..applied] == items;
    ok := true;
  }

  lemma {:induction false} PutAllMore(m: Store, xs: seq<Item>, x: Item)
    ensures PutAll(m, xs + [x]) == Put(PutAll(m, xs), x)
    decreases xs
  {
    hide Put;
    if xs == [] {
      assert [x][1..] == [];
    } else {
      assert (xs + [x])[1..] == xs[1..] + [x];
      PutAllMore(Put(m, xs[0]), xs[1..], x);
    }
  }

  lemma BadItemIsIgnored(m: Store, x: Item)
    requires !x.Admissible()
    ensures Put(m, x) == m
  {
  }

  lemma ListedIsAdmissible(m: Store, items: seq<Item>)
    requires Keyed(m)
    requires forall x :: x in items ==> x.SummaryKey() in m && m[x.SummaryKey()] == x
    ensures forall x :: x in items ==> x.Admissible()
  {
  }

  /** Whether a response comes back and can be read. */
  datatype Link = Up | Down

  /** One pull from a peer's index. With a response that arrives it never fails, and
      leaves exactly what the pull of the two stores says; without one it fails and
      changes nothing. */
  method PullFrom(index: SummaryIndex, peer: SummaryIndex, opts: DiffOptions, link: Link)
      returns (result: Option<PullResult>)
    requires index.Valid() && peer.Valid()
    modifies index
    ensures index.Valid()
    ensures result.Some? <==> link.Up?
    ensures link.Down? ==> index.items == old(index.items)
    ensures link.Up? ==> index.items == PullOf(old(index.items), old(peer.items), opts)
    ensures Keyed(Live(old(index.items), opts.now))
    ensures link.Up? ==>
      && result.value.applied == |result.value.diff.items|
      && result.value.diff == DiffOf(old(peer.items), Marks(Live(old(index.items), opts.now)), opts)
  {
    hide Item.Admissible, Keyed, Describes, Selection, Marks, Live, PutAll;
    var watermarks := index.Watermarks(opts.now);
    if link.Down? { return None; }
    ghost var live := Live(index.items, opts.now);
    WatermarkLaws.DescriptionIsValid(watermarks, live);
    WatermarkLaws.DescriptionIsMarks(watermarks, live);
    var response := peer.Diff(watermarks, opts);
    if response.None? { return None; }
    var diff := response.value;
    WatermarkLaws.DiffShape(peer.items, Marks(live), opts);
    ListedIsAdmissible(peer.items, diff.items);
    var applied, ok := ApplyItems(index, diff.items);
    assert diff.items[..|diff.items|] == diff.items;
    if !ok { return None; }
    return Some(PullResult(diff, applied));
  }

  // ---- The schedule of the mesh runtimes ----

  ghost function StepWith(nodes: Nodes, e: Edge, opts: DiffOptions): (nodes': Nodes)
    requires AllKeyed(nodes) && e.receiver < |nodes| && e.sender < |nodes|
    ensures AllKeyed(nodes') && |nodes'| == |nodes|
  {
    PullOfIsKeyed(nodes[e.receiver], nodes[e.sender], opts);
    nodes[e.receiver := PullOf(nodes[e.receiver], nodes[e.sender], opts)]
  }

  ghost function RunWith(nodes: Nodes, edges: seq<Edge>, opts: DiffOptions): (nodes': Nodes)
    requires AllKeyed(nodes) && Within(edges, |nodes|)
    ensures AllKeyed(nodes') && |nodes'| == |nodes|
    decreases edges
  {
    if edges == [] then nodes else RunWith(StepWith(nodes, edges[0], opts), edges[1..], opts)
  }

  lemma RunNothing(nodes: Nodes, opts: DiffOptions)
    requires AllKeyed(nodes)
    ensures RunWith(nodes, [], opts) == nodes
  {
  }

  lemma {:induction false} RunWithMore(nodes: Nodes, edges: seq<Edge>, e: Edge, opts: DiffOptions)
    requires AllKeyed(nodes) && Within(edges, |nodes|)
    requires e.receiver < |nodes| && e.sender < |nodes|
    ensures Within(edges + [e], |nodes|)
    ensures RunWith(nodes, edges + [e], opts) == StepWith(RunWith(nodes, edges, opts), e, opts)
    decreases edges
  {
    hide StepWith, AllKeyed;
    if edges == [] {
      assert [e][1..] == [];
    } else {
      assert (edges + [e])[1..] == edges[1..] + [e];
      RunWithMore(StepWith(nodes, edges[0], opts), edges[1..], e, opts);
    }
  }

  lemma {:induction false} RunWithAppend(nodes: Nodes, xs: seq<Edge>, ys: seq<Edge>, opts: DiffOptions)
    requires AllKeyed(nodes) && Within(xs, |nodes|) && Within(ys, |nodes|)
    ensures Within(xs + ys, |nodes|)
    ensures RunWith(nodes, xs + ys, opts) == RunWith(RunWith(nodes, xs, opts), ys, opts)
    decreases xs
  {
    hide StepWith, AllKeyed;
    if xs == [] {
      assert xs + ys == ys;
    } else {
      assert (xs + ys)[1..] == xs[1..] + ys;
      RunWithAppend(StepWith(nodes, xs[0], opts), xs[1..], ys, opts);
    }
  }

  /** Without an item limit these runs are the gossip runs. */
  lemma {:induction false} UnlimitedRun(nodes: Nodes, edges: seq<Edge>, now: Time)
    requires AllKeyed(nodes) && Within(edges, |nodes|)
    ensures RunWith(nodes, edges, DiffOptions(now, 0)) == Run(nodes, edges, now)
    decreases edges
  {
    hide AllKeyed;
    if edges != [] {
      UnlimitedRun(Step(nodes, edges[0], now), edges[1..], now);
    }
  }

  ghost function StoresOf(runtimes: seq<SummaryIndex>): (nodes: Nodes)
    reads runtimes
    ensures |nodes| == |runtimes|
    ensures forall i :: 0 <= i < |runtimes| ==> nodes[i] == runtimes[i].items
  {
    seq(|runtimes|, i requires 0 <= i < |runtimes| reads runtimes => runtimes[i].items)
  }

  ghost predicate DistinctRuntimes(runtimes: seq<SummaryIndex>) {
    forall i, j :: 0 <= i < j < |runtimes| ==> runtimes[i] != runtimes[j]
  }

  ghost predicate AllValid(runtimes: seq<SummaryIndex>)
    reads runtimes
  {
    forall i :: 0 <= i < |runtimes| ==> runtimes[i].Valid()
  }

  /** The pulls of one node from the listed peers. */
  function EdgesFrom(node: nat, peers: seq<int>): (es: seq<Edge>)
    requires forall i :: 0 <= i < |peers| ==> peers[i] >= 0
    ensures |es| == |peers|
    ensures forall i :: 0 <= i < |es| ==> es[i] == Edge(node, peers[i])
  {
    seq(|peers|, i requires 0 <= i < |peers| => Edge(node, peers[i]))
  }

  /** Every index but the node's own, in order. */
  method AllPeerIndexes(runtimeCount: nat, nodeIndex: int) returns (peers: seq<nat>)
    ensures |peers| == if 0 <= nodeIndex < runtimeCount then runtimeCount - 1 else runtimeCount
    ensures forall i :: 0 <= i < |peers| ==> peers[i] == if 0 <= nodeIndex <= i then i + 1 else i
  {
    peers := [];
    for peer := 0 to runtimeCount
      invariant |peers| == if 0 <= nodeIndex < peer then peer - 1 else peer
      invariant forall i :: 0 <= i < |peers| ==> peers[i] == if 0 <= nodeIndex <= i then i + 1 else i
    {
      if peer != nodeIndex { peers := peers + [peer]; }
    }
  }

  /** One pull among the runtimes is one step on their stores, or none. */
  method PullEdge(runtimes: seq<SummaryIndex>, nodeIndex: nat, peer: nat, opts: DiffOptions, link: Link)
      returns (result: Option<PullResult>)
    requires nodeIndex < |runtimes| && peer < |runtimes|
    requires DistinctRuntimes(runtimes) && AllValid(runtimes)
    modifies runtimes[nodeIndex]
    ensures AllValid(runtimes) && AllKeyed(old(StoresOf(runtimes)))
    ensures result.Some? <==> link.Up?
    ensures link.Up? ==>
      && result.value.applied == |result.value.diff.items|
      && StoresOf(runtimes) == StepWith(old(StoresOf(runtimes)), Edge(nodeIndex, peer), opts)
    ensures link.Down? ==> StoresOf(runtimes) == old(StoresOf(runtimes))
  {
    hide Item.Admissible, Keyed, PullOf;
    KeyedStores(runtimes);
    ghost var here := StoresOf(runtimes);
    result := PullFrom(runtimes[nodeIndex], runtimes[peer], opts, link);
    if link.Up? {
      assert StoresOf(runtimes) == StepWith(here, Edge(nodeIndex, peer), opts);
    } else {
      assert StoresOf(runtimes) == here;
    }
  }

  datatype NodeReport = NodeReport(
    initialSummaries: nat, finalSummaries: nat, watermarks: nat, peerCount: nat, applied: nat, diffItems: nat)

  /** A peer that can be pulled from. */
  predicate Reachable(peer: int, nodeIndex: int, count: nat, link: Link) {
    0 <= peer < count && peer != nodeIndex && link.Up?
  }

  /** All these peers can be pulled from. */
  ghost predicate AllReachable(peers: seq<int>, nodeIndex: int, count: nat, links: nat -> Link) {
    && (forall i :: 0 <= i < |peers| ==> 0 <= peers[i] < count && peers[i] != nodeIndex)
    && (forall i: nat :: i < |peers| ==> links(i).Up?)
  }

  /** Pulls from the listed peers in turn, up to the first that cannot be reached. */
  method PullInTurn(runtimes: seq<SummaryIndex>, nodeIndex: nat, peers: seq<int>, opts: DiffOptions,
                    links: nat -> Link)
      returns (done: nat, applied: nat, diffItems: nat)
    requires nodeIndex < |runtimes| && DistinctRuntimes(runtimes) && AllValid(runtimes)
    modifies runtimes[nodeIndex]
    ensures AllValid(runtimes) && AllKeyed(old(StoresOf(runtimes)))
    ensures applied == diffItems
    ensures
      && done <= |peers|
      && AllReachable(peers[..done], nodeIndex, |runtimes|, links)
      && (done < |peers| ==> !Reachable(peers[done], nodeIndex, |runtimes|, links(done)))
      && StoresOf(runtimes) == RunWith(old(StoresOf(runtimes)), EdgesFrom(nodeIndex, peers[..done]), opts)
  {
    hide Item.Admissible, AllKeyed, StepWith, RunWith, AllValid, StoresOf;
    done, applied, diffItems := 0, 0, 0;
    ghost var before := StoresOf(runtimes);
    KeyedStores(runtimes);
    assert EdgesFrom(nodeIndex, peers[..0]) == [];
    assert RunWith(before, [], opts) == before by { RunNothing(before, opts); }
    while done < |peers|
      invariant done <= |peers| && AllValid(runtimes)
      invariant AllReachable(peers[..done], nodeIndex, |runtimes|, links)
      invariant StoresOf(runtimes) == RunWith(before, EdgesFrom(nodeIndex, peers[..done]), opts)
      invariant applied == diffItems
    {
      var peer := peers[done];
      if peer < 0 || peer >= |runtimes| || peer == nodeIndex { return; }
      var result := PullEdge(runtimes, nodeIndex, peer, opts, links(done));
      if result.None? { return; }
      applied := applied + result.value.applied;
      diffItems := diffItems + |result.value.diff.items|;
      assert EdgesFrom(nodeIndex, peers[..done + 1])
          == EdgesFrom(nodeIndex, peers[..done]) + [Edge(nodeIndex, peer)];
      RunWithMore(before, EdgesFrom(nodeIndex, peers[..done]), Edge(nodeIndex, peer), opts);
      done := done + 1;
    }
  }

  /** One node pulls from the listed peers in turn. An index that is out of range or
      the node's own, or a pull that fails, stops it; the pulls before that have
      taken effect. The i-th pull meets the i-th link. */
  method PullPeerIndexes(runtimes: seq<SummaryIndex>, nodeIndex: int, peers: seq<int>, opts: DiffOptions,
                         links: nat -> Link)
      returns (report: Option<NodeReport>, done: nat)
    requires DistinctRuntimes(runtimes) && AllValid(runtimes)
    modifies runtimes
    ensures AllValid(runtimes)
    ensures !(0 <= nodeIndex < |runtimes|) ==>
      report.None? && done == 0 && StoresOf(runtimes) == old(StoresOf(runtimes))
    ensures 0 <= nodeIndex < |runtimes| ==>
      && done <= |peers|
      && AllReachable(peers[..done], nodeIndex, |runtimes|, links)
      && (report.Some? <==> done == |peers|)
      && (done < |peers| ==> !Reachable(peers[done], nodeIndex, |runtimes|, links(done)))
      && StoresOf(runtimes) == RunWith(old(StoresOf(runtimes)), EdgesFrom(nodeIndex, peers[..done]), opts)
    ensures report.Some? ==>
      && 0 <= nodeIndex < |runtimes|
      && report.value.peerCount == |peers|
      && report.value.applied == report.value.diffItems
      && report.value.initialSummaries == |old(runtimes[nodeIndex].items)|
      && report.value.finalSummaries == |runtimes[nodeIndex].items|
      && report.value.watermarks == |CellsOf(Live(runtimes[nodeIndex].items, opts.now))|
  {
    hide Item.Admissible, AllKeyed, StepWith, RunWith, AllValid, StoresOf, Live, Describes, Reachable, EdgesFrom;
    if nodeIndex < 0 || nodeIndex >= |runtimes| { return None, 0; }
    var index := runtimes[nodeIndex];
    var initial := index.Len();
    var applied, diffItems;
    done, applied, diffItems := PullInTurn(runtimes, nodeIndex, peers, opts, links);
    if done < |peers| { return None, done; }
    OneValid(runtimes, nodeIndex);
    var final := index.Len();
    var watermarks := index.Watermarks(opts.now);
    WatermarkLaws.OneEntryPerCell(watermarks, Live(index.items, opts.now));
    report := Some(NodeReport(initial, final, |watermarks.entries|, |peers|, applied, diffItems));
  }

  lemma OneValid(runtimes: seq<SummaryIndex>, i: nat)
    requires AllValid(runtimes) && i < |runtimes|
    ensures runtimes[i].Valid()
  {
  }

  lemma KeyedStores(runtimes: seq<SummaryIndex>)
    requires AllValid(runtimes)
    ensures AllKeyed(StoresOf(runtimes))
  {
  }

  // ---- A round in which every node pulls from every other ----

  function PeersOf(n: nat, i: nat): (peers: seq<nat>)
    requires i < n
    ensures |peers| == n - 1
    ensures forall j :: 0 <= j < |peers| ==> peers[j] == if i <= j then j + 1 else j
  {
    seq(n - 1, j requires 0 <= j < n - 1 => if i <= j then j + 1 else j)
  }

  /** The pulls of the first m of n nodes. */
  function AllPairs(n: nat, m: nat): seq<Edge>
    requires m <= n
  {
    if m == 0 then [] else AllPairs(n, m - 1) + EdgesFrom(m - 1, PeersOf(n, m - 1))
  }

  lemma {:induction false} AllPairsEdges(n: nat, m: nat)
    requires m <= n
    ensures forall e :: e in AllPairs(n, m) <==> e.receiver < m && e.sender < n && e.receiver != e.sender
  {
    if m > 0 {
      AllPairsEdges(n, m - 1);
      var last := EdgesFrom(m - 1, PeersOf(n, m - 1));
      forall e: Edge | e.receiver == m - 1 && e.sender < n && e.receiver != e.sender ensures e in last {
        var j := if e.sender < m - 1 then e.sender else e.sender - 1;
        assert last[j] == e;
      }
    }
  }

  lemma AllPairsConnected(n: nat)
    ensures Within(AllPairs(n, n), n) && StronglyConnected(AllPairs(n, n), n)
  {
    var edges := AllPairs(n, n);
    AllPairsEdges(n, n);
    assert forall i :: 0 <= i < |edges| ==> edges[i] in edges;
    forall i, j | 0 <= i < n && 0 <= j < n ensures Connected(edges, i, j) {
      var p: seq<nat> := if i == j then [i] else [i, j];
      assert i != j ==> Edge(i, j) in edges;
      assert Path(edges, p);
    }
  }

  /** A round in which every pull gets through. */
  method PullRound(runtimes: seq<SummaryIndex>, opts: DiffOptions)
    requires DistinctRuntimes(runtimes) && AllValid(runtimes)
    modifies runtimes
    ensures AllValid(runtimes) && AllKeyed(old(StoresOf(runtimes)))
    ensures Within(AllPairs(|runtimes|, |runtimes|), |runtimes|)
    ensures StoresOf(runtimes)
         == RunWith(old(StoresOf(runtimes)), AllPairs(|runtimes|, |runtimes|), opts)
  {
    hide Item.Admissible, AllKeyed, StepWith, RunWith, AllValid, StoresOf;
    var n := |runtimes|;
    ghost var before := StoresOf(runtimes);
    KeyedStores(runtimes);
    RunNothing(before, opts);
    for i := 0 to n
      invariant AllValid(runtimes)
      invariant Within(AllPairs(n, i), n)
      invariant StoresOf(runtimes) == RunWith(before, AllPairs(n, i), opts)
    {
      var peers := AllPeerIndexes(n, i);
      assert peers == PeersOf(n, i);
      var report, done := PullPeerIndexes(runtimes, i, peers, opts, _ => Up);
      assert peers[..done] == peers;
      RunWithAppend(before, AllPairs(n, i), EdgesFrom(i, peers), opts);
    }
  }

  /** Repeating the round among coherent nodes converges. */
  lemma AllPairsConverge(nodes: Nodes, rounds: nat, now: Time, universe: set<Item>)
    requires World(nodes, universe) && AllKeyed(nodes) && Coherent(universe, now)
    requires rounds > |nodes| * |universe|
    ensures var schedule := seq(rounds, _ => AllPairs(|nodes|, |nodes|));
            && ConnectedRounds(schedule, |nodes|)
            && var final := RunRounds(nodes, schedule, now);
               Agreed(final, now)
               && forall i :: 0 <= i < |final| ==> NewestOfAll(Live(final[i], now), nodes, now)
  {
    hide World, AllKeyed, Coherent, AllPairs, Within, StronglyConnected, RunRounds, Agreed, NewestOfAll,
         Live;
    AllPairsConnected(|nodes|);
    var schedule := seq(rounds, _ => AllPairs(|nodes|, |nodes|));
    GossipConverges(nodes, schedule, now, universe);
  }
}
