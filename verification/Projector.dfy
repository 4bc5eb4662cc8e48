/** The telemetry projector, the local graph fed by it, and their agreement. */
module Projectors {
  import opened Bytes
  import opened Items
  import opened Messages
  import Sorting

  // ---- Entity ids ----

  function Digit(n: nat): char
    requires n < 10
  {
    '0' + n as char
  }

  /** A system id in three decimal digits. */
  function Pad3(system: uint8): (s: string)
    ensures |s| == 3
  {
    var n := system as nat;
    [Digit(n / 100), Digit(n / 10 % 10), Digit(n % 10)]
  }

  datatype AlertKind = LowBattery | LostLink {
    function Token(): string {
      if LowBattery? then "low-battery" else "lost-link"
    }
  }

  const VEHICLE_PREFIX := "c360.semlink.robotics.fleet.drone.uav-"
  const ALERT_PREFIX := "c360.semlink.robotics.fleet.alert."

  function VehicleEntityID(system: uint8): string {
    VEHICLE_PREFIX + Pad3(system)
  }

  function AlertEntityID(kind: AlertKind, system: uint8): string {
    ALERT_PREFIX + kind.Token() + "-uav-" + Pad3(system)
  }

  lemma Pad3Value(system: uint8)
    ensures var d := Pad3(system);
      && '0' <= d[0] <= '9' && '0' <= d[1] <= '9' && '0' <= d[2] <= '9'
      && 100 * (d[0] - '0') as int + 10 * (d[1] - '0') as int + (d[2] - '0') as int == system as int
  {
  }

  /** Ids end in the three decimal digits of the system id. */
  lemma EntityIDTexts(system: uint8)
    ensures var d := Pad3(system);
      && '0' <= d[0] <= '9' && '0' <= d[1] <= '9' && '0' <= d[2] <= '9'
      && 100 * (d[0] - '0') as int + 10 * (d[1] - '0') as int + (d[2] - '0') as int == system as int
      && VehicleEntityID(system) == "c360.semlink.robotics.fleet.drone.uav-" + d
      && AlertEntityID(LowBattery, system) == "c360.semlink.robotics.fleet.alert." + "low-battery" + "-uav-" + d
      && AlertEntityID(LostLink, system) == "c360.semlink.robotics.fleet.alert." + "lost-link" + "-uav-" + d
  {
    hide Pad3;
    Pad3Value(system);
  }

  lemma Pad3Injective(a: uint8, b: uint8)
    requires Pad3(a) == Pad3(b)
    ensures a == b
  {
    hide Pad3;
    Pad3Value(a);
    Pad3Value(b);
  }

  lemma VehicleIdsDiffer(a: uint8, b: uint8)
    requires VehicleEntityID(a) == VehicleEntityID(b)
    ensures a == b
  {
    hide Pad3;
    assert Pad3(a) == VehicleEntityID(a)[|VEHICLE_PREFIX|..] == Pad3(b);
    Pad3Injective(a, b);
  }

  lemma VehicleIsNoAlert(a: uint8, kind: AlertKind, b: uint8)
    ensures VehicleEntityID(a) != AlertEntityID(kind, b)
  {
  }

  // ---- State ----

  datatype LinkStatus = Online | Lost

  /** One vehicle as last heard of; positions and speeds stay in message units. */
  datatype Vehicle = Vehicle(
    system: uint8, vehicleType: Option<uint8>, sequence: uint8, armed: bool, active: bool,
    link: LinkStatus, lastSeen: Time, battery: int, voltage: int, position: Option<Position>,
    sampleTime: Time)

  datatype Alert = Alert(kind: AlertKind, system: uint8, value: int, raisedAt: Time) {
    function ID(): string {
      AlertEntityID(kind, system)
    }
  }

  datatype Projection = VehicleState(vehicle: Vehicle) | AlertRaised(alert: Alert) {
    function EntityID(): string {
      if VehicleState? then VehicleEntityID(vehicle.system) else alert.ID()
    }
  }

  datatype Config = Config(lowBattery: int, lostLinkAfter: int) {
    function WithDefaults(): Config {
      Config(if lowBattery <= 0 then 25 else lowBattery, if lostLinkAfter <= 0 then 4000 else lostLinkAfter)
    }
  }

  function NewVehicle(system: uint8): Vehicle {
    Vehicle(system, None, 0, false, false, Online, ZERO_TIME, 100, 0, None, ZERO_TIME)
  }

  /** What any message tells: that the vehicle is there. */
  function Heard(v: Vehicle, msg: Message, at: Time): Vehicle {
    v.(sequence := msg.header.sequence, sampleTime := at, lastSeen := at, link := Online)
  }

  function Told(v: Vehicle, msg: Message, at: Time): Vehicle {
    var h := Heard(v, msg, at);
    match msg
    case Heartbeat(_, _, vehicleType, _, _, _, _) =>
      h.(armed := msg.Armed(), vehicleType := Some(vehicleType), active := true)
    case SysStatus(_, _, voltage, _, battery, _, _) => h.(battery := battery, voltage := voltage)
    case GlobalPosition(_, position) => h.(position := Some(position))
    case CommandAck(_, _, _, _, _, _, _) => h
  }

  predicate Telemetry(msg: Message) {
    !msg.CommandAck?
  }

  predicate BatteryLow(v: Vehicle, cfg: Config) {
    0 < v.battery <= cfg.lowBattery
  }

  predicate Silent(v: Vehicle, cfg: Config, now: Time) {
    v.lastSeen != ZERO_TIME && now - v.lastSeen > cfg.lostLinkAfter
  }

  function LostVehicle(v: Vehicle, now: Time): Vehicle {
    v.(link := Lost, sampleTime := now)
  }

  // ---- The view ----

  ghost predicate Filed(states: map<uint8, Vehicle>, alerts: map<string, Alert>) {
    && (forall s :: s in states ==> states[s].system == s)
    && (forall id :: id in alerts ==> alerts[id].ID() == id)
  }

  /** The graph is the projector's snapshot: one entity per vehicle, one per alert. */
  ghost predicate InSync(graph: map<string, Projection>, states: map<uint8, Vehicle>, alerts: map<string, Alert>) {
    && (forall s :: s in states ==>
          VehicleEntityID(s) in graph && graph[VehicleEntityID(s)] == VehicleState(states[s]))
    && (forall id :: id in alerts ==> id in graph && graph[id] == AlertRaised(alerts[id]))
    && (forall id :: id in graph ==> id in alerts || exists s :: s in states && id == VehicleEntityID(s))
  }

  function Written(graph: map<string, Projection>, ps: seq<Projection>): map<string, Projection>
    decreases ps
  {
    if ps == [] then graph else Written(graph[ps[0].EntityID() := ps[0]], ps[1..])
  }

  lemma {:induction false} WrittenMore(graph: map<string, Projection>, ps: seq<Projection>, p: Projection)
    ensures Written(graph, ps + [p]) == Written(graph, ps)[p.EntityID() := p]
    decreases ps
  {
    hide Projection.EntityID;
    if ps == [] {
      assert [p][1..] == [];
    } else {
      assert (ps + [p])[1..] == ps[1..] + [p];
      WrittenMore(graph[ps[0].EntityID() := ps[0]], ps[1..], p);
    }
  }

  lemma {:induction false} WrittenAppend(graph: map<string, Projection>, ps: seq<Projection>, qs: seq<Projection>)
    ensures Written(graph, ps + qs) == Written(Written(graph, ps), qs)
    decreases ps
  {
    hide Projection.EntityID;
    if ps == [] {
      assert ps + qs == qs;
    } else {
      assert (ps + qs)[1..] == ps[1..] + qs;
      WrittenAppend(graph[ps[0].EntityID() := ps[0]], ps[1..], qs);
    }
  }

  lemma VehicleWritten(graph: map<string, Projection>, states: map<uint8, Vehicle>,
                       alerts: map<string, Alert>, v: Vehicle)
    requires InSync(graph, states, alerts) && Filed(states, alerts)
    ensures InSync(graph[VehicleEntityID(v.system) := VehicleState(v)], states[v.system := v], alerts)
    ensures Filed(states[v.system := v], alerts)
  {
    hide VehicleEntityID, AlertEntityID;
    var id, states' := VehicleEntityID(v.system), states[v.system := v];
    forall s | s in states' && VehicleEntityID(s) == id ensures s == v.system {
      VehicleIdsDiffer(s, v.system);
    }
    forall j | j in alerts ensures j != id { VehicleIsNoAlert(v.system, alerts[j].kind, alerts[j].system); }
    forall j | j in graph && j != id ensures j in alerts || exists s :: s in states' && j == VehicleEntityID(s) {
      if j !in alerts {
        var s :| s in states && j == VehicleEntityID(s);
        assert s in states';
      }
    }
  }

  lemma AlertWritten(graph: map<string, Projection>, states: map<uint8, Vehicle>,
                     alerts: map<string, Alert>, a: Alert)
    requires InSync(graph, states, alerts) && Filed(states, alerts)
    ensures InSync(graph[a.ID() := AlertRaised(a)], states, alerts[a.ID() := a])
    ensures Filed(states, alerts[a.ID() := a])
  {
    hide VehicleEntityID, AlertEntityID;
    forall s | s in states ensures VehicleEntityID(s) != a.ID() { VehicleIsNoAlert(s, a.kind, a.system); }
  }

  // ---- The projector ----

  class Projector {
    const cfg: Config
    var states: map<uint8, Vehicle>
    var alerts: map<string, Alert>

    ghost predicate Valid()
      reads this
    {
      Filed(states, alerts)
    }

    constructor (config: Config)
      ensures Valid() && states == map[] && alerts == map[] && cfg == config.WithDefaults()
      ensures cfg.lowBattery == if config.lowBattery <= 0 then 25 else config.lowBattery
      ensures cfg.lostLinkAfter == if config.lostLinkAfter <= 0 then 4000 else config.lostLinkAfter
    {
      cfg, states, alerts := config.WithDefaults(), map[], map[];
    }

    function StateFor(system: uint8): Vehicle
      reads this
    {
      if system in states then states[system] else NewVehicle(system)
    }

    /** Takes in one message. What it emits, written to any graph that was in sync,
        leaves it in sync, if the message is telemetry; an acknowledgement changes
        the state and emits nothing. */
    method Apply(msg: Message, at: Time) returns (emitted: seq<Projection>)
      requires Valid()
      modifies this
      ensures Valid()
      ensures states == old(states)[msg.header.system := Told(old(StateFor(msg.header.system)), msg, at)]
      ensures var v := Told(old(StateFor(msg.header.system)), msg, at);
              var low := Alert(LowBattery, v.system, v.battery, at);
              if !Telemetry(msg) then emitted == [] && alerts == old(alerts)
              else if BatteryLow(v, cfg) then
                emitted == [VehicleState(v), AlertRaised(low)] && alerts == old(alerts)[low.ID() := low]
              else emitted == [VehicleState(v)] && alerts == old(alerts)
      ensures Telemetry(msg) ==>
        forall graph :: InSync(graph, old(states), old(alerts)) ==> InSync(Written(graph, emitted), states, alerts)
    {
      hide AlertEntityID, VehicleEntityID, InSync, Filed;
      var system := msg.header.system;
      var v := Told(StateFor(system), msg, at);
      assert v.system == system by { FiledUnderSystem(states, alerts, system); }
      ghost var states0, alerts0 := states, alerts;
      states := states[system := v];
      FiledStays(states0, alerts0, v);
      if msg.CommandAck? { return []; }
      emitted := [VehicleState(v)];
      VehicleEmitted(states0, alerts0, v);
      if BatteryLow(v, cfg) {
        var alert := Alert(LowBattery, v.system, v.battery, at);
        AlertEmitted(states0, alerts0, v, alert);
        alerts := alerts[alert.ID() := alert];
        emitted := emitted + [AlertRaised(alert)];
      }
    }

    /** Raises a lost-link alert for every silent vehicle, in whatever order. */
    method CheckLinkTimeouts(now: Time) returns (emitted: seq<Projection>)
      requires Valid()
      modifies this
      ensures Valid()
      ensures states == Checked(old(states), cfg, now, old(states).Keys)
      ensures AlertsChecked(old(alerts), alerts, old(states), cfg, now, old(states).Keys)
      ensures forall graph ::
        InSync(graph, old(states), old(alerts)) ==> InSync(Written(graph, emitted), states, alerts)
    {
      hide AlertEntityID, VehicleEntityID, InSync, Filed, AlertsChecked, Checked;
      emitted := [];
      ghost var states0, alerts0 := states, alerts;
      var systems := states.Keys;
      NothingChecked(states, alerts, cfg, now);
      while systems != {}
        invariant systems <= states0.Keys && Filed(states, alerts)
        invariant states == Checked(states0, cfg, now, states0.Keys - systems)
        invariant AlertsChecked(alerts0, alerts, states0, cfg, now, states0.Keys - systems)
        invariant forall graph ::
          InSync(graph, states0, alerts0) ==> InSync(Written(graph, emitted), states, alerts)
        decreases systems
      {
        var system :| system in systems;
        ghost var done := states0.Keys - systems;
        systems := systems - {system};
        assert states0.Keys - systems == done + {system};
        CheckedAt(states0, alerts0, alerts, cfg, now, done, system);
        var v := states[system];
        if !Silent(v, cfg, now) { continue; }
        var lost := LostVehicle(v, now);
        var alert := Alert(LostLink, system, now - v.lastSeen, now);
        assert v.system == system by { FiledUnderSystem(states, alerts, system); }
        AlertEmitted(states, alerts, lost, alert);
        EmittedAfter(states0, alerts0, states, alerts, emitted, [VehicleState(lost)] + [AlertRaised(alert)],
                     states[system := lost], alerts[alert.ID() := alert]);
        emitted := emitted + ([VehicleState(lost)] + [AlertRaised(alert)]);
        states := states[system := lost];
        alerts := alerts[alert.ID() := alert];
      }
      assert states0.Keys - {} == states0.Keys;
    }

    /** The vehicles by system id and the alerts, latest first. */
    method Snapshot() returns (vehicles: seq<Vehicle>, raised: seq<Alert>)
      requires Valid()
      ensures |vehicles| == |states| && |raised| == |alerts|
      ensures forall v :: v in vehicles <==> v.system in states && states[v.system] == v
      ensures forall a :: a in raised <==> a.ID() in alerts && alerts[a.ID()] == a
      ensures forall i, j :: 0 <= i < j < |vehicles| ==> vehicles[i].system < vehicles[j].system
      ensures forall i, j :: 0 <= i < j < |raised| ==> raised[i].raisedAt >= raised[j].raisedAt
    {
      hide AlertEntityID, VehicleEntityID;
      var found: seq<Vehicle> := [];
      var systems := states.Keys;
      while systems != {}
        invariant systems <= states.Keys
        invariant |found| + |systems| == |states|
        invariant forall v :: v in found <==> v.system in states.Keys - systems && states[v.system] == v
        invariant forall i, j :: 0 <= i < j < |found| ==> found[i].system != found[j].system
        decreases systems
      {
        var system :| system in systems;
        systems := systems - {system};
        found := found + [states[system]];
      }
      vehicles := Sorting.Sort(BySystem, found);
      SortedVehicles(found);
      var open: seq<Alert> := [];
      var ids := alerts.Keys;
      while ids != {}
        invariant ids <= alerts.Keys
        invariant |open| + |ids| == |alerts|
        invariant forall a :: a in open <==> a.ID() in alerts.Keys - ids && alerts[a.ID()] == a
        decreases ids
      {
        var id :| id in ids;
        ids := ids - {id};
        open := open + [alerts[id]];
      }
      raised := Sorting.Sort(LatestFirst, open);
      SortedAlerts(open);
    }
  }

  predicate BySystem(a: Vehicle, b: Vehicle) {
    a.system < b.system
  }

  predicate LatestFirst(a: Alert, b: Alert) {
    a.raisedAt > b.raisedAt
  }

  lemma SortedVehicles(found: seq<Vehicle>)
    requires forall i, j :: 0 <= i < j < |found| ==> found[i].system != found[j].system
    ensures var r := Sorting.Sort(BySystem, found);
            && |r| == |found| && (forall v :: v in r <==> v in found)
            && forall i, j :: 0 <= i < j < |r| ==> r[i].system < r[j].system
  {
    var r := Sorting.Sort(BySystem, found);
    Sorting.SameMembers(found, r);
    Sorting.SortSorts(BySystem, found);
    Sorting.RearrangedNoDuplicates(found, r);
    forall i, j | 0 <= i < j < |r| ensures r[i].system < r[j].system {
      assert r[i] in found && r[j] in found;
    }
  }

  lemma SortedAlerts(open: seq<Alert>)
    ensures var r := Sorting.Sort(LatestFirst, open);
            && |r| == |open| && (forall a :: a in r <==> a in open)
            && forall i, j :: 0 <= i < j < |r| ==> r[i].raisedAt >= r[j].raisedAt
  {
    var r := Sorting.Sort(LatestFirst, open);
    Sorting.SameMembers(open, r);
    Sorting.SortSorts(LatestFirst, open);
  }

  // ---- What a link check does ----

  function Checked(states: map<uint8, Vehicle>, cfg: Config, now: Time, done: set<uint8>): map<uint8, Vehicle> {
    map s | s in states ::
      if s in done && Silent(states[s], cfg, now) then LostVehicle(states[s], now) else states[s]
  }

  /** A check turns the link of a vehicle, seen before and silent beyond the limit, to lost
      at that time, and leaves every other vehicle as it is. */
  lemma CheckedByFields(states: map<uint8, Vehicle>, cfg: Config, now: Time, s: uint8)
    requires s in states
    ensures var v, after := states[s], Checked(states, cfg, now, states.Keys);
      && after.Keys == states.Keys
      && after[s] == if v.lastSeen != 0 && now - v.lastSeen > cfg.lostLinkAfter
                     then v.(link := Lost, sampleTime := now) else v
  {
  }

  /** The alerts after the vehicles in done have been checked. */
  ghost predicate AlertsChecked(before: map<string, Alert>, after: map<string, Alert>,
                                states: map<uint8, Vehicle>, cfg: Config, now: Time, done: set<uint8>)
  {
    && (forall s :: s in done && s in states && Silent(states[s], cfg, now) ==>
          AlertEntityID(LostLink, s) in after
          && after[AlertEntityID(LostLink, s)] == Alert(LostLink, s, now - states[s].lastSeen, now))
    && (forall id :: id in before ==> id in after)
    && (forall id :: id in after ==>
          || (id in before && after[id] == before[id])
          || exists s :: s in done && s in states && Silent(states[s], cfg, now) && id == AlertEntityID(LostLink, s))
  }

  lemma NothingChecked(states: map<uint8, Vehicle>, alerts: map<string, Alert>, cfg: Config, now: Time)
    ensures Checked(states, cfg, now, states.Keys - states.Keys) == states
    ensures AlertsChecked(alerts, alerts, states, cfg, now, states.Keys - states.Keys)
    ensures forall graph :: Written(graph, []) == graph
  {
  }

  lemma AlertIdsDiffer(kind: AlertKind, a: uint8, b: uint8)
    requires AlertEntityID(kind, a) == AlertEntityID(kind, b)
    ensures a == b
  {
    hide Pad3, AlertKind.Token;
    var prefix := ALERT_PREFIX + kind.Token() + "-uav-";
    assert Pad3(a) == AlertEntityID(kind, a)[|prefix|..] == Pad3(b);
    Pad3Injective(a, b);
  }

  /** One more vehicle checked. */
  lemma CheckedAt(states: map<uint8, Vehicle>, before: map<string, Alert>, alerts: map<string, Alert>,
                  cfg: Config, now: Time, done: set<uint8>, system: uint8)
    requires system in states && system !in done
    requires AlertsChecked(before, alerts, states, cfg, now, done)
    ensures system in Checked(states, cfg, now, done) && Checked(states, cfg, now, done)[system] == states[system]
    ensures var v, more := states[system], done + {system};
            if Silent(v, cfg, now) then
              var a := Alert(LostLink, system, now - v.lastSeen, now);
              && Checked(states, cfg, now, more) == Checked(states, cfg, now, done)[system := LostVehicle(v, now)]
              && AlertsChecked(before, alerts[a.ID() := a], states, cfg, now, more)
            else
              && Checked(states, cfg, now, more) == Checked(states, cfg, now, done)
              && AlertsChecked(before, alerts, states, cfg, now, more)
  {
    hide AlertEntityID, Silent;
    var v, more := states[system], done + {system};
    if Silent(v, cfg, now) {
      var a := Alert(LostLink, system, now - v.lastSeen, now);
      forall s | s in done && AlertEntityID(LostLink, s) == a.ID() ensures s == system {
        AlertIdsDiffer(LostLink, s, system);
      }
      forall id | id in alerts && id != a.ID() && !(id in before && alerts[id] == before[id])
        ensures exists s :: s in more && s in states && Silent(states[s], cfg, now) && id == AlertEntityID(LostLink, s)
      {
        var s :| s in done && s in states && Silent(states[s], cfg, now) && id == AlertEntityID(LostLink, s);
        assert s in more;
      }
    } else {
      forall id | id in alerts && !(id in before && alerts[id] == before[id])
        ensures exists s :: s in more && s in states && Silent(states[s], cfg, now) && id == AlertEntityID(LostLink, s)
      {
        var s :| s in done && s in states && Silent(states[s], cfg, now) && id == AlertEntityID(LostLink, s);
        assert s in more;
      }
    }
  }

  lemma EmittedAfter(states0: map<uint8, Vehicle>, alerts0: map<string, Alert>,
                     states: map<uint8, Vehicle>, alerts: map<string, Alert>,
                     emitted: seq<Projection>, more: seq<Projection>,
                     states': map<uint8, Vehicle>, alerts': map<string, Alert>)
    requires forall graph :: InSync(graph, states0, alerts0) ==> InSync(Written(graph, emitted), states, alerts)
    requires forall graph :: InSync(graph, states, alerts) ==> InSync(Written(graph, more), states', alerts')
    ensures forall graph :: InSync(graph, states0, alerts0) ==> InSync(Written(graph, emitted + more), states', alerts')
  {
    hide InSync;
    forall graph | InSync(graph, states0, alerts0) ensures InSync(Written(graph, emitted + more), states', alerts') {
      WrittenAppend(graph, emitted, more);
    }
  }

  lemma FiledUnderSystem(states: map<uint8, Vehicle>, alerts: map<string, Alert>, s: uint8)
    requires Filed(states, alerts)
    ensures s in states ==> states[s].system == s
  {
  }

  lemma FiledStays(states: map<uint8, Vehicle>, alerts: map<string, Alert>, v: Vehicle)
    requires Filed(states, alerts)
    ensures Filed(states[v.system := v], alerts)
  {
  }

  lemma VehicleEmitted(states: map<uint8, Vehicle>, alerts: map<string, Alert>, v: Vehicle)
    requires Filed(states, alerts)
    ensures forall graph :: InSync(graph, states, alerts) ==>
      InSync(Written(graph, [VehicleState(v)]), states[v.system := v], alerts)
  {
    hide InSync, Filed, VehicleEntityID, AlertEntityID;
    forall graph | InSync(graph, states, alerts)
      ensures InSync(Written(graph, [VehicleState(v)]), states[v.system := v], alerts)
    {
      VehicleWritten(graph, states, alerts, v);
      WrittenMore(graph, [], VehicleState(v));
      assert [] + [VehicleState(v)] == [VehicleState(v)];
    }
  }

  /** A vehicle's state and an alert, written in this order. */
  lemma AlertEmitted(states: map<uint8, Vehicle>, alerts: map<string, Alert>, v: Vehicle, a: Alert)
    requires Filed(states, alerts)
    ensures Filed(states[v.system := v], alerts[a.ID() := a])
    ensures forall graph :: InSync(graph, states, alerts) ==>
      InSync(Written(graph, [VehicleState(v)] + [AlertRaised(a)]), states[v.system := v], alerts[a.ID() := a])
  {
    hide InSync, Filed, VehicleEntityID, AlertEntityID, Alert.ID;
    FiledStays(states, alerts, v);
    FiledAlert(states[v.system := v], alerts, a);
    forall graph | InSync(graph, states, alerts)
      ensures InSync(Written(graph, [VehicleState(v)] + [AlertRaised(a)]),
                     states[v.system := v], alerts[a.ID() := a])
    {
      VehicleEmitted(states, alerts, v);
      var next := Written(graph, [VehicleState(v)]);
      AlertWritten(next, states[v.system := v], alerts, a);
      WrittenMore(graph, [VehicleState(v)], AlertRaised(a));
    }
  }

  lemma FiledAlert(states: map<uint8, Vehicle>, alerts: map<string, Alert>, a: Alert)
    requires Filed(states, alerts)
    ensures Filed(states, alerts[a.ID() := a])
  {
  }
}
