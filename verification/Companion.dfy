/** A node: frames and link checks in, a projector, and the local graph it feeds. */
module Companion {
  import opened Bytes
  import opened Items
  import opened Messages
  import opened Projectors
  import opened Histories

  class LocalGraph {
    var projections: map<string, Projection>

    constructor ()
      ensures projections == map[]
    {
      projections := map[];
    }

    method Apply(ps: seq<Projection>)
      modifies this
      ensures projections == Written(old(projections), ps)
    {
      hide Projection.EntityID;
      for i := 0 to |ps|
        invariant projections == Written(old(projections), ps[..i])
      {
        assert ps[..i + 1] == ps[..i] + [ps[i]];
        WrittenMore(old(projections), ps[..i], ps[i]);
        projections := projections[ps[i].EntityID() := ps[i]];
      }
      assert ps[..|ps|] == ps;
    }

    method Len() returns (n: nat)
      ensures n == |projections|
    {
      n := |projections|;
    }
  }

  // ---- What agreement means ----

  /** A graph in sync has one entity per vehicle plus one per alert. */
  lemma {:induction false} InSyncCount(graph: map<string, Projection>, states: map<uint8, Vehicle>,
                                       alerts: map<string, Alert>)
    requires InSync(graph, states, alerts) && Filed(states, alerts)
    ensures |graph| == |states| + |alerts|
    decreases states.Keys
  {
    hide VehicleEntityID, InSync, Filed;
    if s :| s in states {
      var id := VehicleEntityID(s);
      WithoutVehicle(graph, states, alerts, s);
      InSyncCount(graph - {id}, states - {s}, alerts);
      OneLess(graph, id);
      OneLess(states, s);
    } else {
      AlertsOnly(graph, states, alerts);
    }
  }

  lemma AlertsOnly(graph: map<string, Projection>, states: map<uint8, Vehicle>, alerts: map<string, Alert>)
    requires InSync(graph, states, alerts) && forall s :: s !in states
    ensures |graph| == |alerts| && |states| == 0
  {
    hide VehicleEntityID, AlertEntityID;
    assert graph.Keys == alerts.Keys;
    assert |graph| == |graph.Keys| && |alerts| == |alerts.Keys|;
    assert states == map[];
  }

  lemma OneLess<K, V>(m: map<K, V>, k: K)
    requires k in m
    ensures |m| == |m - {k}| + 1
  {
  }

  lemma WithoutVehicle(graph: map<string, Projection>, states: map<uint8, Vehicle>,
                       alerts: map<string, Alert>, s: uint8)
    requires InSync(graph, states, alerts) && Filed(states, alerts) && s in states
    ensures VehicleEntityID(s) in graph
    ensures InSync(graph - {VehicleEntityID(s)}, states - {s}, alerts) && Filed(states - {s}, alerts)
  {
    hide VehicleEntityID, AlertEntityID;
    var id, rest := VehicleEntityID(s), states - {s};
    forall t | t in rest ensures VehicleEntityID(t) != id {
      if VehicleEntityID(t) == id { VehicleIdsDiffer(t, s); }
    }
    forall j | j in alerts ensures j != id { VehicleIsNoAlert(s, alerts[j].kind, alerts[j].system); }
    forall j | j in graph && j != id && j !in alerts ensures exists t :: t in rest && j == VehicleEntityID(t) {
      var t :| t in states && j == VehicleEntityID(t);
      assert t in rest;
    }
  }

  lemma UnknownVehicle(graph: map<string, Projection>, states: map<uint8, Vehicle>,
                       alerts: map<string, Alert>, s: uint8)
    requires InSync(graph, states, alerts) && Filed(states, alerts) && s !in states
    ensures VehicleEntityID(s) !in graph
  {
    hide VehicleEntityID, AlertEntityID;
    forall t | t in states ensures VehicleEntityID(t) != VehicleEntityID(s) {
      if VehicleEntityID(t) == VehicleEntityID(s) { VehicleIdsDiffer(t, s); }
    }
    forall j | j in alerts ensures j != VehicleEntityID(s) {
      VehicleIsNoAlert(s, alerts[j].kind, alerts[j].system);
    }
  }

  /** An acknowledgement emits nothing, so the graph stays in sync exactly when it
      repeats what the projector already has of that vehicle. */
  lemma AckKeepsSyncExact(graph: map<string, Projection>, states: map<uint8, Vehicle>,
                          alerts: map<string, Alert>, msg: Message, at: Time)
    requires InSync(graph, states, alerts) && Filed(states, alerts) && !Telemetry(msg)
    ensures var s := msg.header.system;
            var v := if s in states then states[s] else NewVehicle(s);
            InSync(graph, states[s := Told(v, msg, at)], alerts)
            <==> (s in states && v.sequence == msg.header.sequence && v.sampleTime == at
                  && v.lastSeen == at && v.link.Online?)
  {
    hide VehicleEntityID, AlertEntityID;
    var s := msg.header.system;
    var id := VehicleEntityID(s);
    var v := if s in states then states[s] else NewVehicle(s);
    if s !in states {
      UnknownVehicle(graph, states, alerts, s);
      assert s in states[s := Told(v, msg, at)];
    }
    if s in states {
      assert graph[id] == VehicleState(v);
      if Told(v, msg, at) == v { assert states[s := v] == states; }
    }
  }

  // ---- Link status over time ----

  /** No vehicle is called lost without having been silent too long by this time. */
  ghost predicate Honest(states: map<uint8, Vehicle>, cfg: Config, clock: Time) {
    forall s :: s in states && states[s].link.Lost? ==> Silent(states[s], cfg, clock)
  }

  lemma ToldIsHonest(states: map<uint8, Vehicle>, cfg: Config, clock: Time, msg: Message, at: Time, v: Vehicle)
    requires Honest(states, cfg, clock) && clock <= at
    ensures Honest(states[msg.header.system := Told(v, msg, at)], cfg, at)
  {
  }

  // ---- The node ----

  /** A frame with the time it was emitted at. */
  datatype Emitted = Emitted(bytes: seq<uint8>, at: Time)

  datatype NodeSnapshot = NodeSnapshot(
    frames: nat, decoded: nat, projected: nat, vehicles: seq<Vehicle>, alerts: seq<Alert>, graphEntities: nat)

  predicate Decodes(frame: Emitted) {
    DecodeMessage(frame.bytes).Got?
  }

  predicate Tells(frame: Emitted) {
    Decodes(frame) && Telemetry(DecodeMessage(frame.bytes).value)
  }

  /** The states after all the decodable frames. */
  function ToldAll(states: map<uint8, Vehicle>, frames: seq<Emitted>): map<uint8, Vehicle> {
    if frames == [] then states
    else
      var before, last := ToldAll(states, frames[..|frames| - 1]), frames[|frames| - 1];
      match DecodeMessage(last.bytes)
      case NoMessage(_) => before
      case Got(msg) =>
        var s := msg.header.system;
        before[s := Told(if s in before then before[s] else NewVehicle(s), msg, last.at)]
  }

  lemma ToldMore(states: map<uint8, Vehicle>, frames: seq<Emitted>, k: nat)
    requires k < |frames| && Decodes(frames[k])
    ensures var before, msg := ToldAll(states, frames[..k]), DecodeMessage(frames[k].bytes).value;
            var s := msg.header.system;
            ToldAll(states, frames[..k + 1])
            == before[s := Told(if s in before then before[s] else NewVehicle(s), msg, frames[k].at)]
  {
    hide DecodeMessage, Told;
    assert frames[..k + 1][..k] == frames[..k];
  }

  lemma NothingYet(states: map<uint8, Vehicle>, alerts: map<string, Alert>, cfg: Config, frames: seq<Emitted>)
    ensures ToldAll(states, frames[..0]) == states
    ensures Remembers(states, states, cfg.lostLinkAfter, AsInputs(frames[..0]))
    ensures Raises(alerts, alerts, states, cfg, AsInputs(frames[..0]))
  {
    hide Remembers, Raises;
    assert AsInputs(frames[..0]) == [];
    RemembersAtFirst(states, cfg.lostLinkAfter);
    RaisesAtFirst(alerts, states, cfg);
  }

  class Node {
    const projector: Projector
    const graph: LocalGraph

    ghost predicate Valid()
      reads this, projector, graph
    {
      projector.Valid()
    }

    ghost predicate Synced()
      reads this, projector, graph
    {
      InSync(graph.projections, projector.states, projector.alerts)
    }

    constructor (cfg: Config)
      ensures Valid() && Synced() && fresh(projector) && fresh(graph)
      ensures projector.states == map[] && projector.cfg == cfg.WithDefaults()
    {
      projector := new Projector(cfg);
      graph := new LocalGraph();
    }

    /** Decodes one frame and, if it decodes, projects it into the graph. */
    method Handle(bytes: seq<uint8>, at: Time) returns (decoded: bool, projected: nat)
      requires Valid()
      modifies projector, graph
      ensures Valid()
      ensures decoded <==> DecodeMessage(bytes).Got?
      ensures !decoded ==> projector.states == old(projector.states) && projected == 0
      ensures decoded ==>
        var msg := DecodeMessage(bytes).value;
        projector.states == old(projector.states)[msg.header.system :=
          Told(old(projector.StateFor(msg.header.system)), msg, at)]
        && (if Telemetry(msg) then 1 <= projected <= 2 else projected == 0)
      ensures !decoded ==> projector.alerts == old(projector.alerts)
      ensures decoded ==>
        var msg, s := DecodeMessage(bytes).value, DecodeMessage(bytes).value.header.system;
        var battery := projector.states[s].battery;
        projector.alerts == if Telemetry(msg) && 0 < battery <= projector.cfg.lowBattery
          then old(projector.alerts)[AlertEntityID(LowBattery, s) := Alert(LowBattery, s, battery, at)]
          else old(projector.alerts)
      ensures old(Synced()) && Received(bytes, at).Harmless() ==> Synced()
    {
      hide DecodeMessage, InSync, Filed, Told, AlertEntityID;
      var message := DecodeMessage(bytes);
      if message.NoMessage? { return false, 0; }
      ghost var s := message.value.header.system;
      assert Told(projector.StateFor(s), message.value, at).system == s by {
        ToldSystem(projector.states, projector.alerts, message.value, at);
      }
      var projections := projector.Apply(message.value, at);
      graph.Apply(projections);
      return true, |projections|;
    }

    /** One step of the harness: the simulator's frames in order, up to the first
        that does not decode, and then a snapshot. */
    method Step(frames: seq<Emitted>) returns (snapshot: Option<NodeSnapshot>, handled: nat)
      requires Valid()
      modifies projector, graph
      ensures Valid()
      ensures handled <= |frames| && forall i :: 0 <= i < handled ==> Decodes(frames[i])
      ensures handled < |frames| ==> !Decodes(frames[handled])
      ensures projector.states == ToldAll(old(projector.states), frames[..handled])
      ensures Remembers(projector.states, old(projector.states), projector.cfg.lostLinkAfter,
                        AsInputs(frames[..handled]))
      ensures Raises(projector.alerts, old(projector.alerts), old(projector.states), projector.cfg,
                     AsInputs(frames[..handled]))
      ensures snapshot.Some? <==> handled == |frames|
      ensures old(Synced()) && (forall i :: 0 <= i < handled ==> Tells(frames[i])) ==> Synced()
      ensures snapshot.Some? ==>
        && snapshot.value.frames == snapshot.value.decoded == |frames|
        && (forall v :: v in snapshot.value.vehicles <==>
              v.system in projector.states && projector.states[v.system] == v)
        && (forall a :: a in snapshot.value.alerts <==> a.ID() in projector.alerts && projector.alerts[a.ID()] == a)
        && snapshot.value.graphEntities == |graph.projections|
      ensures snapshot.Some? && old(Synced()) && (forall i :: 0 <= i < |frames| ==> Tells(frames[i])) ==>
        && |frames| <= snapshot.value.projected <= 2 * |frames|
        && snapshot.value.graphEntities == |snapshot.value.vehicles| + |snapshot.value.alerts|
    {
      hide DecodeMessage, InSync, Filed, Told, ToldAll, AlertEntityID, Remembers, Raises, AsInputs;
      var projected: nat := 0;
      ghost var states0, alerts0, cfg := projector.states, projector.alerts, projector.cfg;
      NothingYet(states0, alerts0, cfg, frames);
      handled := 0;
      while handled < |frames|
        invariant handled <= |frames| && Valid()
        invariant forall i :: 0 <= i < handled ==> Decodes(frames[i])
        invariant projector.states == ToldAll(old(projector.states), frames[..handled])
        invariant Remembers(projector.states, states0, cfg.lostLinkAfter, AsInputs(frames[..handled]))
        invariant Raises(projector.alerts, alerts0, states0, cfg, AsInputs(frames[..handled]))
        invariant old(Synced()) && (forall i :: 0 <= i < handled ==> Tells(frames[i])) ==> Synced()
        invariant (forall i :: 0 <= i < handled ==> Tells(frames[i])) ==> handled <= projected <= 2 * handled
      {
        ghost var states, alerts := projector.states, projector.alerts;
        var decoded, more := Handle(frames[handled].bytes, frames[handled].at);
        if !decoded { return None, handled; }
        ToldMore(old(projector.states), frames, handled);
        FrameRemembered(states, alerts, projector.states, projector.alerts, states0, alerts0, cfg,
                        AsInputs(frames[..handled]), Received(frames[handled].bytes, frames[handled].at));
        AsInputsMore(frames, handled);
        projected := projected + more;
        handled := handled + 1;
      }
      assert frames[..handled] == frames;
      var vehicles, alerts := projector.Snapshot();
      var entities := graph.Len();
      if Synced() { InSyncCount(graph.projections, projector.states, projector.alerts); }
      snapshot := Some(NodeSnapshot(|frames|, handled, projected, vehicles, alerts, entities));
    }

    /** One tick of the link monitor. */
    method Check(now: Time)
      requires Valid()
      modifies projector, graph
      ensures Valid()
      ensures projector.states == Checked(old(projector.states), projector.cfg, now, old(projector.states).Keys)
      ensures AlertsChecked(old(projector.alerts), projector.alerts, old(projector.states), projector.cfg, now,
                            old(projector.states).Keys)
      ensures old(Synced()) ==> Synced()
    {
      hide InSync, Filed, Checked, AlertsChecked;
      var projections := projector.CheckLinkTimeouts(now);
      graph.Apply(projections);
    }

    /** Any run of frames and ticks: the graph is the snapshot throughout if no
        acknowledgement arrives, and link status is honest if time does not run back. */
    method Run(inputs: seq<Input>, ghost start: Time)
      requires Valid() && Synced() && Honest(projector.states, projector.cfg, start)
      modifies projector, graph
      ensures Valid()
      ensures (forall i :: 0 <= i < |inputs| ==> inputs[i].Harmless()) ==>
        Synced() && |graph.projections| == |projector.states| + |projector.alerts|
      ensures Remembers(projector.states, old(projector.states), projector.cfg.lostLinkAfter, inputs)
      ensures Raises(projector.alerts, old(projector.alerts), old(projector.states), projector.cfg, inputs)
      ensures Ordered(inputs, start) ==>
        && Honest(projector.states, projector.cfg, LastTime(inputs, start))
        && (inputs != [] && inputs[|inputs| - 1].Tick? ==>
              forall s :: s in projector.states ==>
                (projector.states[s].link.Lost?
                 <==> Silent(projector.states[s], projector.cfg, LastTime(inputs, start))))
    {
      hide DecodeMessage, InSync, Filed, Checked, AlertsChecked, Told, Honest, AlertEntityID, Silent,
        Remembers, Raises;
      ghost var states0, alerts0, cfg := projector.states, projector.alerts, projector.cfg;
      RemembersAtFirst(states0, cfg.lostLinkAfter);
      RaisesAtFirst(alerts0, states0, cfg);
      assert inputs[..0] == [];
      for i := 0 to |inputs|
        invariant Valid()
        invariant (forall j :: 0 <= j < i ==> inputs[j].Harmless()) ==> Synced()
        invariant Remembers(projector.states, states0, cfg.lostLinkAfter, inputs[..i])
        invariant Raises(projector.alerts, alerts0, states0, cfg, inputs[..i])
        invariant Ordered(inputs, start) ==> Honest(projector.states, projector.cfg, LastTime(inputs[..i], start))
        invariant Ordered(inputs, start) && i > 0 && inputs[i - 1].Tick? ==>
          forall s :: s in projector.states ==>
            (projector.states[s].link.Lost?
             <==> Silent(projector.states[s], projector.cfg, LastTime(inputs[..i], start)))
      {
        ghost var states, alerts, clock := projector.states, projector.alerts, LastTime(inputs[..i], start);
        TimeMoves(inputs, start, i);
        assert inputs[..i + 1] == inputs[..i] + [inputs[i]];
        match inputs[i]
        case Received(bytes, at) =>
          ghost var v := if DecodeMessage(bytes).Got? then
            projector.StateFor(DecodeMessage(bytes).value.header.system) else NewVehicle(0);
          var decoded, projected := Handle(bytes, at);
          FrameRemembered(states, alerts, projector.states, projector.alerts, states0, alerts0, cfg,
                          inputs[..i], inputs[i]);
          if Ordered(inputs, start) {
            LaterIsHonest(states, cfg, clock, at);
            if decoded { ToldIsHonest(states, cfg, clock, DecodeMessage(bytes).value, at, v); }
          }
        case Tick(now) =>
          Check(now);
          RemembersTick(states, states0, cfg, inputs[..i], inputs[i]);
          RaisesTick(alerts, alerts0, projector.alerts, states, states0, cfg, inputs[..i], inputs[i]);
          if Ordered(inputs, start) { LostExactlyWhenSilent(states, cfg, clock, now); }
      }
      assert inputs[..|inputs|] == inputs;
      if forall i :: 0 <= i < |inputs| ==> inputs[i].Harmless() {
        InSyncCount(graph.projections, projector.states, projector.alerts);
      }
    }
  }

  lemma ToldSystem(states: map<uint8, Vehicle>, alerts: map<string, Alert>, msg: Message, at: Time)
    requires Filed(states, alerts)
    ensures var s := msg.header.system;
            Told(if s in states then states[s] else NewVehicle(s), msg, at).system == s
  {
  }

  /** Frames as they are received. */
  function AsInputs(frames: seq<Emitted>): seq<Input> {
    seq(|frames|, i requires 0 <= i < |frames| => Received(frames[i].bytes, frames[i].at))
  }

  lemma AsInputsMore(frames: seq<Emitted>, k: nat)
    requires k < |frames|
    ensures AsInputs(frames[..k + 1]) == AsInputs(frames[..k]) + [Received(frames[k].bytes, frames[k].at)]
  {
  }

  /** What a frame leaves in the states and alerts is what the history says. */
  lemma FrameRemembered(states: map<uint8, Vehicle>, alerts: map<string, Alert>,
                        states': map<uint8, Vehicle>, alerts': map<string, Alert>,
                        states0: map<uint8, Vehicle>, alerts0: map<string, Alert>, cfg: Config,
                        inputs: seq<Input>, x: Input)
    requires Remembers(states, states0, cfg.lostLinkAfter, inputs) && x.Received?
    requires Raises(alerts, alerts0, states0, cfg, inputs)
    requires DecodeMessage(x.bytes).NoMessage? ==> states' == states && alerts' == alerts
    requires DecodeMessage(x.bytes).Got? ==>
      var msg, s := DecodeMessage(x.bytes).value, DecodeMessage(x.bytes).value.header.system;
      && states' == states[s := Told(if s in states then states[s] else NewVehicle(s), msg, x.at)]
      && var battery := states'[s].battery;
      && alerts' == if Telemetry(msg) && 0 < battery <= cfg.lowBattery
           then alerts[AlertEntityID(LowBattery, s) := Alert(LowBattery, s, battery, x.at)]
           else alerts
    ensures Remembers(states', states0, cfg.lostLinkAfter, inputs + [x])
    ensures Raises(alerts', alerts0, states0, cfg, inputs + [x])
  {
    hide DecodeMessage, Told, Remembers, Raises, AlertEntityID;
    if x.Decodes() {
      var s := x.Said().header.system;
      RemembersMessage(states, states0, cfg.lostLinkAfter, inputs, x);
      RaisesMessage(alerts, alerts0, alerts', states', states0, cfg, inputs, x,
                    Alert(LowBattery, s, states'[s].battery, x.at));
    } else {
      RemembersNothing(states, states0, cfg.lostLinkAfter, inputs, x);
      RaisesMessage(alerts, alerts0, alerts', states', states0, cfg, inputs, x, Alert(LowBattery, 0, 0, 0));
    }
  }

  ghost function LastTime(inputs: seq<Input>, start: Time): Time {
    if inputs == [] then start else inputs[|inputs| - 1].When()
  }

  ghost predicate Ordered(inputs: seq<Input>, start: Time) {
    && (forall i :: 0 <= i < |inputs| ==> start <= inputs[i].When())
    && (forall i, j :: 0 <= i < j < |inputs| ==> inputs[i].When() <= inputs[j].When())
  }

  lemma TimeMoves(inputs: seq<Input>, start: Time, i: nat)
    requires i < |inputs|
    ensures LastTime(inputs[..i + 1], start) == inputs[i].When()
    ensures Ordered(inputs, start) ==> LastTime(inputs[..i], start) <= inputs[i].When()
  {
  }

  lemma LaterIsHonest(states: map<uint8, Vehicle>, cfg: Config, clock: Time, at: Time)
    requires Honest(states, cfg, clock) && clock <= at
    ensures Honest(states, cfg, at)
  {
  }

  /** Right after a check, and with clocks that do not run back, a vehicle is lost
      exactly when its silence exceeds the limit. */
  lemma LostExactlyWhenSilent(states: map<uint8, Vehicle>, cfg: Config, clock: Time, now: Time)
    requires Honest(states, cfg, clock) && clock <= now
    ensures var after := Checked(states, cfg, now, states.Keys);
            && Honest(after, cfg, now)
            && forall s :: s in after ==> (after[s].link.Lost? <==> Silent(after[s], cfg, now))
  {
  }

}
