/** What silence on an unreliable network proves. */
module QuietNetwork {
  import opened Items
  import opened SummaryStore
  import opened Watermarks
  import opened Pull
  import opened Gossip
  import opened Network
  import CatchUp

  lemma {:induction false} PrefixHappens(s: Net, events: seq<Event>, i: nat)
    requires Sound(s) && Possible(s, events) && i < |events|
    ensures Possible(s, events[..i]) && Possible(s, events[..i + 1])
    ensures Enabled(After(s, events[..i]), events[i])
    ensures After(s, events[..i + 1]) == Happen(After(s, events[..i]), events[i])
    decreases events
  {
    hide Sound, Enabled, Happen;
    EventIsSafe(s, events[0]);
    var next := Happen(s, events[0]);
    if i == 0 {
      assert events[..1][1..] == [];
    } else {
      PrefixHappens(next, events[1..], i - 1);
      assert events[..i][1..] == events[1..][..i - 1] && events[..i + 1][1..] == events[1..][..i];
    }
  }

  /** The state before the i-th event, or after the last. */
  ghost function StateAt(s: Net, events: seq<Event>, i: nat): (t: Net)
    requires Sound(s) && Possible(s, events) && i <= |events|
    ensures Sound(t)
  {
    if i < |events| then PrefixHappens(s, events, i); After(s, events[..i]) else After(s, events)
  }

  /** Nothing that happens changes a store. */
  ghost predicate Still(s: Net, events: seq<Event>)
    requires Sound(s) && Possible(s, events)
  {
    forall i :: 0 <= i <= |events| ==> StateAt(s, events, i).nodes == s.nodes
  }

  /** The receiver asked with its watermarks of that moment, the sender answered from
      its store of that moment, and the answer arrived in full. */
  ghost predicate ExchangedAt(s: Net, events: seq<Event>, e: Edge, now: Time, i: nat, j: nat, k: nat)
    requires Sound(s) && Possible(s, events)
  {
    && i < j < k < |events|
    && events[i].Ask? && events[i].asker == e.receiver && events[i].asked == e.sender
    && events[i].opts == DiffOptions(now, 0)
    && e.receiver < |StateAt(s, events, i).nodes| && e.sender < |StateAt(s, events, j).nodes|
    && events[i].view == Marks(Live(StateAt(s, events, i).nodes[e.receiver], now))
    && events[j] == Answer(Request(e.receiver, e.sender, events[i].view, events[i].opts))
    && var items := DiffOf(StateAt(s, events, j).nodes[e.sender], events[i].view, events[i].opts).items;
       events[k] == Deliver(Response(e.receiver, items), |items|)
  }

  ghost predicate Exchanged(s: Net, events: seq<Event>, e: Edge, now: Time)
    requires Sound(s) && Possible(s, events)
  {
    exists i, j, k :: ExchangedAt(s, events, e, now, i, j, k)
  }

  lemma EventHappens(s: Net, events: seq<Event>, i: nat)
    requires Sound(s) && Possible(s, events) && i < |events|
    ensures Enabled(StateAt(s, events, i), events[i])
    ensures StateAt(s, events, i + 1) == Happen(StateAt(s, events, i), events[i])
  {
    hide Sound, Enabled, Happen, Possible, After;
    PrefixHappens(s, events, i);
    assert events[..|events|] == events;
  }

  lemma SoundIsWorld(s: Net)
    requires Sound(s)
    ensures AllKeyed(s.nodes) && World(s.nodes, s.published)
  {
    hide Item.Admissible, PutAll;
    forall i | 0 <= i < |s.nodes| ensures Drawn(s.nodes[i], s.published) { StoredIsPublished(s, i); }
  }

  /** An exchange without effect is a pull without effect. */
  lemma FruitlessExchange(s: Net, events: seq<Event>, e: Edge, now: Time, i: nat, j: nat, k: nat)
    requires Sound(s) && Possible(s, events) && Still(s, events)
    requires ExchangedAt(s, events, e, now, i, j, k)
    ensures e.receiver < |s.nodes| && e.sender < |s.nodes| && AllKeyed(s.nodes)
    ensures Step(s.nodes, e, now) == s.nodes
  {
    hide Possible, PutAll, DiffOf, Marks, Live, Keyed, Enabled;
    EventHappens(s, events, k);
    SoundIsWorld(s);
    assert StateAt(s, events, i).nodes == s.nodes && StateAt(s, events, j).nodes == s.nodes;
    var t := StateAt(s, events, k);
    assert t.nodes == s.nodes && StateAt(s, events, k + 1).nodes == s.nodes;
    CatchUp.LiveIsKeyed(s.nodes[e.receiver], now, s.published);
    var items := DiffOf(s.nodes[e.sender], Marks(Live(s.nodes[e.receiver], now)), DiffOptions(now, 0)).items;
    assert items[..|items|] == items;
    assert s.nodes[e.receiver := PutAll(s.nodes[e.receiver], items)] == s.nodes;
  }

  /** Over any stretch in which no store changes, however messages are lost, repeated
      and mixed with older ones: if along each edge of a strongly connected graph one
      question was asked, answered and delivered, then all nodes agree. */
  lemma SilenceMeansAgreement(s: Net, events: seq<Event>, edges: seq<Edge>, now: Time)
    requires Sound(s) && Possible(s, events) && Still(s, events)
    requires Coherent(s.published, now)
    requires Within(edges, |s.nodes|) && StronglyConnected(edges, |s.nodes|)
    requires forall e :: e in edges ==> Exchanged(s, events, e, now)
    ensures Agreed(s.nodes, now)
  {
    hide Sound, Possible, Still, Coherent, Step, World, Agreed, StronglyConnected, ExchangedAt;
    SoundIsWorld(s);
    forall e | e in edges ensures Step(s.nodes, e, now) == s.nodes {
      assert Exchanged(s, events, e, now);
      var i, j, k :| ExchangedAt(s, events, e, now, i, j, k);
      FruitlessExchange(s, events, e, now, i, j, k);
    }
    QuietMeansAgreed(s.nodes, edges, now, s.published);
  }

  // ---- Silence comes ----

  ghost predicate NothingPublished(events: seq<Event>) {
    forall i :: 0 <= i < |events| ==> !events[i].Publish?
  }

  /** How many events of a run change a store. */
  ghost function ChangingEvents(s: Net, events: seq<Event>): nat
    requires Sound(s) && Possible(s, events)
    decreases events
  {
    if events == [] then 0
    else
      EventIsSafe(s, events[0]);
      (if Happen(s, events[0]).nodes != s.nodes then 1 else 0) + ChangingEvents(Happen(s, events[0]), events[1..])
  }

  lemma DeliveryPays(nodes: Nodes, i: nat, m: Store, universe: set<Item>)
    requires AllKeyed(nodes) && i < |nodes| && Advances(nodes[i], m) && Keyed(m) && Drawn(m, universe)
    ensures TotalDeficit(nodes[i := m], universe) <= TotalDeficit(nodes, universe)
    ensures nodes[i := m] != nodes ==> TotalDeficit(nodes[i := m], universe) < TotalDeficit(nodes, universe)
  {
    hide Item.Admissible, Deficit, TotalDeficit, Advances, Keyed, Drawn;
    DeficitFalls(nodes[i], m, universe);
    TotalAfter(nodes, i, m, universe);
    if m == nodes[i] { assert nodes[i := m] == nodes; }
  }

  lemma EventPays(s: Net, e: Event)
    requires Sound(s) && Enabled(s, e) && !e.Publish?
    ensures Happen(s, e).published == s.published && Sound(Happen(s, e))
    ensures TotalDeficit(Happen(s, e).nodes, s.published) <= TotalDeficit(s.nodes, s.published)
    ensures Happen(s, e).nodes != s.nodes ==>
      TotalDeficit(Happen(s, e).nodes, s.published) < TotalDeficit(s.nodes, s.published)
  {
    hide Item.Admissible, PutAll, Advances, DiffOf, Keyed, TotalDeficit, Drawn;
    EventIsSafe(s, e);
    if e.Deliver? {
      var m := e.response;
      StoredIsPublished(Happen(s, e), m.asker);
      DeliveryPays(s.nodes, m.asker, PutAll(s.nodes[m.asker], m.items[..e.applied]), s.published);
    }
  }

  lemma {:induction false} ChangesPay(s: Net, events: seq<Event>)
    requires Sound(s) && Possible(s, events) && NothingPublished(events)
    ensures ChangingEvents(s, events) <= TotalDeficit(s.nodes, s.published)
    decreases events
  {
    hide Sound, Enabled, Happen, TotalDeficit;
    if events != [] {
      EventPays(s, events[0]);
      ChangesPay(Happen(s, events[0]), events[1..]);
    }
  }

  /** Once nothing more is published, no run, whatever the network does, changes a
      store more often than there are nodes times items. */
  lemma SilenceComes(s: Net, events: seq<Event>)
    requires Sound(s) && Possible(s, events) && NothingPublished(events)
    ensures ChangingEvents(s, events) <= |s.nodes| * |s.published|
  {
    hide *;
    ChangesPay(s, events);
    TotalBound(s.nodes, s.published);
  }
}
