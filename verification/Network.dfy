/** Replicas over a network that loses, repeats, delays and reorders messages,
    with publishes and pulls interleaved and pulls cut off midway. */
module Network {
  import opened Items
  import opened SummaryStore
  import opened Watermarks
  import opened Pull
  import opened Gossip
  import WatermarkLaws

  datatype Message =
    | Request(asker: nat, asked: nat, view: map<CellID, CellWatermark>, opts: DiffOptions)
    | Response(asker: nat, items: seq<Item>)

  /** The stores, the messages that may still arrive, what was ever published, and
      per node the items it has been handed so far. */
  datatype Net = Net(nodes: Nodes, inFlight: set<Message>, published: set<Item>, handed: seq<seq<Item>>)

  datatype Event =
    | Publish(node: nat, item: Item)
    | Ask(asker: nat, asked: nat, view: map<CellID, CellWatermark>, opts: DiffOptions)
    | Answer(request: Message)
    | Deliver(response: Message, applied: nat)
    | Lose(message: Message)

  ghost predicate Enabled(s: Net, e: Event) {
    match e
    case Publish(node, _) => node < |s.nodes|
    case Ask(asker, asked, _, _) => asker < |s.nodes| && asked < |s.nodes|
    case Answer(m) => m in s.inFlight && m.Request?
    case Deliver(m, applied) => m in s.inFlight && m.Response? && applied <= |m.items|
    case Lose(m) => m in s.inFlight
  }

  /** What holds of every state: stores are well formed and are the join of what
      was handed in, and nothing in a store or a message is unpublished. */
  ghost predicate Sound(s: Net) {
    && |s.handed| == |s.nodes| && AllKeyed(s.nodes)
    && (forall i :: 0 <= i < |s.nodes| ==> s.nodes[i] == PutAll(map[], s.handed[i]))
    && (forall i :: 0 <= i < |s.nodes| ==> forall x :: x in s.handed[i] ==> x in s.published)
    && (forall m :: m in s.inFlight ==> MessageSound(m, |s.nodes|, s.published))
  }

  ghost predicate MessageSound(m: Message, n: nat, published: set<Item>) {
    match m
    case Request(asker, asked, _, _) => asker < n && asked < n
    case Response(asker, items) => asker < n && forall x :: x in items ==> x in published
  }

  ghost function Hand(s: Net, node: nat, items: seq<Item>): Net
    requires node < |s.nodes| && |s.handed| == |s.nodes|
  {
    s.(nodes := s.nodes[node := PutAll(s.nodes[node], items)],
       handed := s.handed[node := s.handed[node] + items])
  }

  ghost function Happen(s: Net, e: Event): Net
    requires Sound(s) && Enabled(s, e)
  {
    match e
    case Publish(node, item) => Hand(s.(published := s.published + {item}), node, [item])
    case Ask(asker, asked, view, opts) => s.(inFlight := s.inFlight + {Request(asker, asked, view, opts)})
    case Answer(m) =>
      assert MessageSound(m, |s.nodes|, s.published);
      s.(inFlight := s.inFlight + {Response(m.asker, DiffOf(s.nodes[m.asked], m.view, m.opts).items)})
    case Deliver(m, applied) =>
      assert MessageSound(m, |s.nodes|, s.published);
      Hand(s, m.asker, m.items[..applied])
    case Lose(m) => s.(inFlight := s.inFlight - {m})
  }

  lemma {:induction false} PutAllAppend(m: Store, xs: seq<Item>, ys: seq<Item>)
    ensures PutAll(m, xs + ys) == PutAll(PutAll(m, xs), ys)
    decreases xs
  {
    hide Put;
    if xs == [] {
      assert xs + ys == ys;
    } else {
      assert (xs + ys)[1..] == xs[1..] + ys;
      PutAllAppend(Put(m, xs[0]), xs[1..], ys);
    }
  }

  lemma StoredIsPublished(s: Net, i: nat)
    requires Sound(s) && i < |s.nodes|
    ensures Drawn(s.nodes[i], s.published)
  {
    hide Item.Admissible;
    PutAllNewest(map[], s.handed[i]);
  }

  lemma HandIsSound(s: Net, node: nat, items: seq<Item>)
    requires Sound(s) && node < |s.nodes|
    requires forall x :: x in items ==> x in s.published
    ensures Sound(Hand(s, node, items))
    ensures Advances(s.nodes[node], Hand(s, node, items).nodes[node])
  {
    hide Item.Admissible, PutAll, Advances, Keyed;
    PutAllAppend(map[], s.handed[node], items);
    PutAllNewest(s.nodes[node], items);
  }

  /** One event keeps the network sound and no store goes back. */
  lemma EventIsSafe(s: Net, e: Event)
    requires Sound(s) && Enabled(s, e)
    ensures Sound(Happen(s, e)) && |Happen(s, e).nodes| == |s.nodes|
    ensures forall i :: 0 <= i < |s.nodes| ==> Advances(s.nodes[i], Happen(s, e).nodes[i])
  {
    hide Item.Admissible, PutAll, Advances, DiffOf, Keyed;
    forall i | 0 <= i < |s.nodes| ensures Advances(s.nodes[i], s.nodes[i]) { SelfAdvances(s.nodes[i]); }
    match e
    case Publish(node, item) => HandIsSound(s.(published := s.published + {item}), node, [item]);
    case Ask(_, _, _, _) =>
    case Answer(m) =>
      StoredIsPublished(s, m.asked);
      DiffIsStored(s.nodes[m.asked], m.view, m.opts);
    case Deliver(m, applied) => HandIsSound(s, m.asker, m.items[..applied]);
    case Lose(m) =>
  }

  lemma DiffIsStored(m: Store, view: map<CellID, CellWatermark>, opts: DiffOptions)
    requires Keyed(m)
    ensures forall x :: x in DiffOf(m, view, opts).items ==> x.SummaryKey() in m && m[x.SummaryKey()] == x
  {
  }

  // ---- Whole runs ----

  ghost predicate Possible(s: Net, events: seq<Event>)
    requires Sound(s)
    decreases events
  {
    events == [] || (Enabled(s, events[0]) && (EventIsSafe(s, events[0]); Possible(Happen(s, events[0]), events[1..])))
  }

  ghost function After(s: Net, events: seq<Event>): (s': Net)
    requires Sound(s) && Possible(s, events)
    ensures Sound(s')
    decreases events
  {
    if events == [] then s
    else
      EventIsSafe(s, events[0]);
      After(Happen(s, events[0]), events[1..])
  }

  ghost function Start(n: nat): (s: Net)
    ensures Sound(s) && |s.nodes| == n
  {
    Net(seq(n, _ => map[]), {}, {}, seq(n, _ => []))
  }

  /** Over any run no key is lost and no version goes back. */
  lemma {:induction false} RunsAdvance(s: Net, events: seq<Event>, i: nat)
    requires Sound(s) && Possible(s, events) && i < |s.nodes|
    ensures |After(s, events).nodes| == |s.nodes|
    ensures Advances(s.nodes[i], After(s, events).nodes[i])
    decreases events
  {
    hide Sound, Enabled, Happen, Advances;
    if events == [] {
      SelfAdvances(s.nodes[i]);
    } else {
      EventIsSafe(s, events[0]);
      var next := Happen(s, events[0]);
      RunsAdvance(next, events[1..], i);
      AdvancesTransitive(s.nodes[i], next.nodes[i], After(s, events).nodes[i]);
    }
  }

  /** From empty stores, whatever happens, every stored item is valid, is not raw
      MAVLink, is filed under its own key, and was published by some node. */
  lemma RunsAreSafe(n: nat, events: seq<Event>, i: nat, k: Key)
    requires Possible(Start(n), events) && i < n
    ensures |After(Start(n), events).nodes| == n
    ensures var s := After(Start(n), events);
            k in s.nodes[i] ==>
              var x := s.nodes[i][k];
              && x.Valid() && !x.envelope.sourceKind.RawMavlink?
              && x.SummaryKey() == k && x in s.published
  {
    hide Possible, After, Item.Valid, Sound;
    var s := After(Start(n), events);
    RunsAdvance(Start(n), events, i);
    StoredIsPublished(s, i);
    SoundIsKeyed(s, i);
  }

  lemma SoundIsKeyed(s: Net, i: nat)
    requires Sound(s) && i < |s.nodes|
    ensures Keyed(s.nodes[i])
  {
  }

  /** Two runs that hand a node the same items, in whatever order, repetition and
      interleaving, leave it with the same store, unless two of the items tie. */
  lemma DeliveryOrderIsIrrelevant(s: Net, t: Net, i: nat, j: nat)
    requires Sound(s) && Sound(t) && i < |s.nodes| && j < |t.nodes|
    requires SameItems(s.handed[i], t.handed[j]) && !Contested(s.handed[i])
    ensures s.nodes[i] == t.nodes[j]
  {
    hide Contested, SameItems, AllKeyed, MessageSound;
    UncontestedAgree(s.handed[i], t.handed[j]);
  }
}
