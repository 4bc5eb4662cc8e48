/** What a projector knows, told from the frames and ticks it was given. */
module Histories {
  import opened Bytes
  import opened Items
  import opened Messages
  import opened Projectors

  /** A received frame with its time, or a tick of the link monitor. */
  datatype Input = Received(bytes: seq<uint8>, at: Time) | Tick(now: Time) {
    function When(): Time {
      if Received? then at else now
    }

    predicate Decodes() {
      Received? && DecodeMessage(bytes).Got?
    }

    function Said(): Message
      requires Decodes()
    {
      DecodeMessage(bytes).value
    }

    /** Not an acknowledgement. */
    predicate Harmless() {
      Decodes() ==> Telemetry(Said())
    }
  }

  datatype Topic = Anything | Heartbeats | Statuses | Positions | Telemetries

  /** A decoded message of a system on a topic. */
  predicate On(x: Input, topic: Topic, system: uint8) {
    && x.Decodes() && x.Said().header.system == system
    && match topic {
      case Anything => true
      case Heartbeats => x.Said().Heartbeat?
      case Statuses => x.Said().SysStatus?
      case Positions => x.Said().GlobalPosition?
      case Telemetries => !x.Said().CommandAck?
    }
  }

  /** The place of the last message of a system on a topic, -1 if there is none. */
  function Latest(inputs: seq<Input>, topic: Topic, system: uint8): (k: int)
    ensures -1 <= k < |inputs|
    ensures k >= 0 ==> On(inputs[k], topic, system)
  {
    hide On;
    if inputs == [] then -1
    else if On(inputs[|inputs| - 1], topic, system) then |inputs| - 1
    else Latest(inputs[..|inputs| - 1], topic, system)
  }

  lemma {:induction false} LatestIsLast(inputs: seq<Input>, topic: Topic, system: uint8)
    ensures forall j :: Latest(inputs, topic, system) < j < |inputs| ==> !On(inputs[j], topic, system)
  {
    hide On;
    if inputs != [] && !On(inputs[|inputs| - 1], topic, system) {
      var init := inputs[..|inputs| - 1];
      LatestIsLast(init, topic, system);
      assert forall j :: 0 <= j < |init| ==> inputs[j] == init[j];
    }
  }

  lemma LatestMore(inputs: seq<Input>, x: Input, topic: Topic, system: uint8)
    ensures Latest(inputs + [x], topic, system)
         == if On(x, topic, system) then |inputs| else Latest(inputs, topic, system)
  {
    hide On;
    assert (inputs + [x])[..|inputs|] == inputs;
  }

  /** What is known of a system before anything is heard of it. */
  function Known(states: map<uint8, Vehicle>, system: uint8): Vehicle {
    if system in states then states[system]
    else Vehicle(system, None, 0, false, false, Online, 0, 100, 0, None, 0)
  }

  /** The battery of a system by its last status, or as it was at first. */
  function BatteryBy(first: Vehicle, inputs: seq<Input>, system: uint8): int {
    var k := Latest(inputs, Statuses, system);
    if k < 0 then first.battery else inputs[k].Said().battery
  }

  function SeenBy(first: Vehicle, inputs: seq<Input>, system: uint8): Time {
    var k := Latest(inputs, Anything, system);
    if k < 0 then first.lastSeen else inputs[k].at
  }

  /** A tick that found a system, last seen then, silent for too long. */
  predicate FoundSilent(x: Input, seen: Time, limit: int) {
    x.Tick? && seen != 0 && x.now - seen > limit
  }

  // ---- One vehicle ----

  /** Battery and voltage are those of the last status. */
  ghost predicate PowerShown(v: Vehicle, first: Vehicle, inputs: seq<Input>, system: uint8) {
    var k := Latest(inputs, Statuses, system);
    && v.battery == BatteryBy(first, inputs, system)
    && v.voltage == if k < 0 then first.voltage else inputs[k].Said().voltage
  }

  /** Armed and type are those of the last heartbeat, the position that of the last position. */
  ghost predicate StateShown(v: Vehicle, first: Vehicle, inputs: seq<Input>, system: uint8) {
    var k, p := Latest(inputs, Heartbeats, system), Latest(inputs, Positions, system);
    && v.armed == (if k < 0 then first.armed else inputs[k].Said().baseMode >= 128)
    && v.vehicleType == (if k < 0 then first.vehicleType else Some(inputs[k].Said().vehicleType))
    && v.active == (k >= 0 || first.active)
    && v.position == if p < 0 then first.position else Some(inputs[p].Said().position)
  }

  /** Sequence and time are those of the last message, and the link is lost exactly when
      a tick after it found the vehicle silent. */
  ghost predicate LinkShown(v: Vehicle, first: Vehicle, limit: int, inputs: seq<Input>, system: uint8) {
    var k := Latest(inputs, Anything, system);
    && v.lastSeen == SeenBy(first, inputs, system)
    && v.sequence == (if k < 0 then first.sequence else inputs[k].Said().header.sequence)
    && (v.link.Lost? <==>
          || (k < 0 && first.link.Lost?)
          || exists j :: k < j < |inputs| && FoundSilent(inputs[j], v.lastSeen, limit))
  }

  ghost predicate Shows(v: Vehicle, first: Vehicle, limit: int, inputs: seq<Input>, system: uint8) {
    && PowerShown(v, first, inputs, system) && StateShown(v, first, inputs, system)
    && LinkShown(v, first, limit, inputs, system)
  }

  lemma ShowsAtFirst(first: Vehicle, limit: int, system: uint8)
    ensures Shows(first, first, limit, [], system)
  {
  }

  lemma LatestsMore(inputs: seq<Input>, x: Input, system: uint8)
    ensures forall topic :: Latest(inputs + [x], topic, system)
                         == if On(x, topic, system) then |inputs| else Latest(inputs, topic, system)
  {
    forall topic { LatestMore(inputs, x, topic, system); }
  }

  lemma MessageShown(v: Vehicle, first: Vehicle, limit: int, inputs: seq<Input>, x: Input, system: uint8)
    requires Shows(v, first, limit, inputs, system) && On(x, Anything, system)
    ensures Shows(Told(v, x.Said(), x.at), first, limit, inputs + [x], system)
  {
    hide PowerShown, StateShown, LinkShown, Told, Latest, On, Input.Said, Input.Decodes;
    MessagePower(v, first, inputs, x, system);
    MessageState(v, first, inputs, x, system);
    MessageLink(v, first, limit, inputs, x, system);
  }

  lemma MessagePower(v: Vehicle, first: Vehicle, inputs: seq<Input>, x: Input, system: uint8)
    requires PowerShown(v, first, inputs, system) && On(x, Anything, system)
    ensures PowerShown(Told(v, x.Said(), x.at), first, inputs + [x], system)
  {
    hide DecodeMessage, Latest;
    LatestMore(inputs, x, Statuses, system);
  }

  lemma MessageState(v: Vehicle, first: Vehicle, inputs: seq<Input>, x: Input, system: uint8)
    requires StateShown(v, first, inputs, system) && On(x, Anything, system)
    ensures StateShown(Told(v, x.Said(), x.at), first, inputs + [x], system)
  {
    hide DecodeMessage, Latest;
    LatestMore(inputs, x, Heartbeats, system);
    LatestMore(inputs, x, Positions, system);
  }

  lemma MessageLink(v: Vehicle, first: Vehicle, limit: int, inputs: seq<Input>, x: Input, system: uint8)
    requires LinkShown(v, first, limit, inputs, system) && On(x, Anything, system)
    ensures LinkShown(Told(v, x.Said(), x.at), first, limit, inputs + [x], system)
  {
    hide DecodeMessage, Latest;
    LatestMore(inputs, x, Anything, system);
  }

  /** Other inputs leave a vehicle as it is, except a tick that finds it silent. */
  lemma OtherShown(v: Vehicle, first: Vehicle, limit: int, inputs: seq<Input>, x: Input, system: uint8)
    requires Shows(v, first, limit, inputs, system) && !On(x, Anything, system)
    ensures Shows(if FoundSilent(x, v.lastSeen, limit) then LostVehicle(v, x.now) else v,
                  first, limit, inputs + [x], system)
  {
    hide DecodeMessage, Latest;
    LatestsMore(inputs, x, system);
    var k := Latest(inputs, Anything, system);
    assert forall j :: k < j < |inputs| ==> (inputs + [x])[j] == inputs[j];
    assert (inputs + [x])[|inputs|] == x;
  }

  // ---- All vehicles ----

  /** The states show the history of every system, and hold those heard of. */
  ghost predicate Remembers(states: map<uint8, Vehicle>, states0: map<uint8, Vehicle>, limit: int,
                            inputs: seq<Input>)
  {
    forall s ::
      && (s in states <==> s in states0 || Latest(inputs, Anything, s) >= 0)
      && Shows(Known(states, s), Known(states0, s), limit, inputs, s)
  }

  lemma RemembersAtFirst(states: map<uint8, Vehicle>, limit: int)
    ensures Remembers(states, states, limit, [])
  {
    hide Shows;
    forall s ensures Shows(Known(states, s), Known(states, s), limit, [], s) {
      ShowsAtFirst(Known(states, s), limit, s);
    }
  }

  lemma RemembersMessage(states: map<uint8, Vehicle>, states0: map<uint8, Vehicle>, limit: int,
                         inputs: seq<Input>, x: Input)
    requires Remembers(states, states0, limit, inputs) && x.Decodes()
    ensures var system := x.Said().header.system;
            Remembers(states[system := Told(Known(states, system), x.Said(), x.at)], states0, limit, inputs + [x])
  {
    hide Shows, DecodeMessage, Latest, Told;
    var system := x.Said().header.system;
    var after := states[system := Told(Known(states, system), x.Said(), x.at)];
    forall s
      ensures s in after <==> s in states0 || Latest(inputs + [x], Anything, s) >= 0
      ensures Shows(Known(after, s), Known(states0, s), limit, inputs + [x], s)
    {
      LatestMore(inputs, x, Anything, s);
      if s == system {
        MessageShown(Known(states, s), Known(states0, s), limit, inputs, x, s);
      } else {
        OtherShown(Known(states, s), Known(states0, s), limit, inputs, x, s);
      }
    }
  }

  lemma RemembersNothing(states: map<uint8, Vehicle>, states0: map<uint8, Vehicle>, limit: int,
                         inputs: seq<Input>, x: Input)
    requires Remembers(states, states0, limit, inputs) && x.Received? && !x.Decodes()
    ensures Remembers(states, states0, limit, inputs + [x])
  {
    hide Shows, DecodeMessage, Latest;
    forall s
      ensures s in states <==> s in states0 || Latest(inputs + [x], Anything, s) >= 0
      ensures Shows(Known(states, s), Known(states0, s), limit, inputs + [x], s)
    {
      LatestMore(inputs, x, Anything, s);
      OtherShown(Known(states, s), Known(states0, s), limit, inputs, x, s);
    }
  }

  lemma RemembersTick(states: map<uint8, Vehicle>, states0: map<uint8, Vehicle>, cfg: Config,
                      inputs: seq<Input>, x: Input)
    requires Remembers(states, states0, cfg.lostLinkAfter, inputs) && x.Tick?
    ensures Remembers(Checked(states, cfg, x.now, states.Keys), states0, cfg.lostLinkAfter, inputs + [x])
  {
    hide Shows, DecodeMessage, Latest;
    var after := Checked(states, cfg, x.now, states.Keys);
    forall s
      ensures s in after <==> s in states0 || Latest(inputs + [x], Anything, s) >= 0
      ensures Shows(Known(after, s), Known(states0, s), cfg.lostLinkAfter, inputs + [x], s)
    {
      LatestMore(inputs, x, Anything, s);
      OtherShown(Known(states, s), Known(states0, s), cfg.lostLinkAfter, inputs, x, s);
    }
  }

  // ---- Alerts ----

  /** Some telemetry message left the battery between one and the threshold. */
  ghost predicate RanLow(first: Vehicle, threshold: int, inputs: seq<Input>, system: uint8) {
    exists i :: 0 <= i < |inputs| && On(inputs[i], Telemetries, system)
                && 0 < BatteryBy(first, inputs[..i + 1], system) <= threshold
  }

  /** Some tick found the vehicle silent. */
  ghost predicate FellSilent(first: Vehicle, limit: int, inputs: seq<Input>, system: uint8) {
    exists i :: 0 <= i < |inputs| && FoundSilent(inputs[i], SeenBy(first, inputs[..i], system), limit)
  }

  lemma LowMore(first: Vehicle, threshold: int, inputs: seq<Input>, x: Input, system: uint8)
    ensures RanLow(first, threshold, inputs + [x], system) <==>
      || RanLow(first, threshold, inputs, system)
      || (On(x, Telemetries, system) && 0 < BatteryBy(first, inputs + [x], system) <= threshold)
  {
    hide On, BatteryBy;
    var more := inputs + [x];
    assert forall i :: 0 <= i < |inputs| ==> more[..i + 1] == inputs[..i + 1] && more[i] == inputs[i];
    assert more[..|inputs| + 1] == more && more[|inputs|] == x;
  }

  lemma SilentMore(first: Vehicle, limit: int, inputs: seq<Input>, x: Input, system: uint8)
    ensures FellSilent(first, limit, inputs + [x], system) <==>
      FellSilent(first, limit, inputs, system) || FoundSilent(x, SeenBy(first, inputs, system), limit)
  {
    hide FoundSilent, SeenBy;
    var more := inputs + [x];
    assert forall i :: 0 <= i < |inputs| ==> more[..i] == inputs[..i] && more[i] == inputs[i];
    assert more[..|inputs|] == inputs && more[|inputs|] == x;
  }

  /** A vehicle has a low-battery alert exactly when it ran low, and a lost-link alert
      exactly when it fell silent, unless it had one at first. */
  ghost predicate Raises(alerts: map<string, Alert>, alerts0: map<string, Alert>, states0: map<uint8, Vehicle>,
                         cfg: Config, inputs: seq<Input>)
  {
    forall s :: RaisesFor(s, alerts, alerts0, Known(states0, s), cfg, inputs)
  }

  ghost predicate RaisesFor(s: uint8, alerts: map<string, Alert>, alerts0: map<string, Alert>, first: Vehicle,
                            cfg: Config, inputs: seq<Input>)
  {
    && (AlertEntityID(LowBattery, s) in alerts <==>
          AlertEntityID(LowBattery, s) in alerts0 || RanLow(first, cfg.lowBattery, inputs, s))
    && (AlertEntityID(LostLink, s) in alerts <==>
          AlertEntityID(LostLink, s) in alerts0 || FellSilent(first, cfg.lostLinkAfter, inputs, s))
  }

  lemma RaisesAtFirst(alerts: map<string, Alert>, states: map<uint8, Vehicle>, cfg: Config)
    ensures Raises(alerts, alerts, states, cfg, [])
  {
  }

  lemma AlertKindsDiffer(a: uint8, b: uint8)
    ensures AlertEntityID(LowBattery, a) != AlertEntityID(LostLink, b)
  {
    hide Pad3;
    var n := |ALERT_PREFIX| + 2;
    assert AlertEntityID(LowBattery, a)[n] == 'w' && AlertEntityID(LostLink, b)[n] == 's';
  }

  lemma AlertsApart()
    ensures forall a, b :: AlertEntityID(LowBattery, a) != AlertEntityID(LostLink, b)
    ensures forall kind, a, b :: AlertEntityID(kind, a) == AlertEntityID(kind, b) ==> a == b
  {
    hide AlertEntityID;
    forall a, b ensures AlertEntityID(LowBattery, a) != AlertEntityID(LostLink, b) { AlertKindsDiffer(a, b); }
    forall kind, a, b | AlertEntityID(kind, a) == AlertEntityID(kind, b) ensures a == b { AlertIdsDiffer(kind, a, b); }
  }

  lemma RaisesMessage(alerts: map<string, Alert>, alerts0: map<string, Alert>, alerts': map<string, Alert>,
                      states: map<uint8, Vehicle>, states0: map<uint8, Vehicle>, cfg: Config,
                      inputs: seq<Input>, x: Input, a: Alert)
    requires Raises(alerts, alerts0, states0, cfg, inputs) && x.Received?
    requires Remembers(states, states0, cfg.lostLinkAfter, inputs + [x])
    requires !x.Decodes() ==> alerts' == alerts
    requires x.Decodes() ==>
      var s := x.Said().header.system;
      if Telemetry(x.Said()) && 0 < Known(states, s).battery <= cfg.lowBattery
      then alerts' == alerts[AlertEntityID(LowBattery, s) := a]
      else alerts' == alerts
    ensures Raises(alerts', alerts0, states0, cfg, inputs + [x])
  {
    hide AlertEntityID, DecodeMessage, RanLow, FellSilent, BatteryBy, SeenBy, StateShown, LinkShown, Latest;
    AlertsApart();
    forall s ensures RaisesFor(s, alerts', alerts0, Known(states0, s), cfg, inputs + [x]) {
      assert RaisesFor(s, alerts, alerts0, Known(states0, s), cfg, inputs);
      assert Shows(Known(states, s), Known(states0, s), cfg.lostLinkAfter, inputs + [x], s);
      LowMore(Known(states0, s), cfg.lowBattery, inputs, x, s);
      SilentMore(Known(states0, s), cfg.lostLinkAfter, inputs, x, s);
      assert BatteryBy(Known(states0, s), inputs + [x], s) == Known(states, s).battery;
    }
  }

  lemma RaisesTick(alerts: map<string, Alert>, alerts0: map<string, Alert>, alerts': map<string, Alert>,
                   states: map<uint8, Vehicle>, states0: map<uint8, Vehicle>, cfg: Config,
                   inputs: seq<Input>, x: Input)
    requires Raises(alerts, alerts0, states0, cfg, inputs) && x.Tick?
    requires Remembers(states, states0, cfg.lostLinkAfter, inputs)
    requires AlertsChecked(alerts, alerts', states, cfg, x.now, states.Keys)
    ensures Raises(alerts', alerts0, states0, cfg, inputs + [x])
  {
    hide AlertEntityID, DecodeMessage, RanLow, FellSilent, BatteryBy, SeenBy, StateShown, PowerShown, Latest;
    AlertsApart();
    forall s ensures RaisesFor(s, alerts', alerts0, Known(states0, s), cfg, inputs + [x]) {
      assert RaisesFor(s, alerts, alerts0, Known(states0, s), cfg, inputs);
      assert Shows(Known(states, s), Known(states0, s), cfg.lostLinkAfter, inputs, s);
      LowMore(Known(states0, s), cfg.lowBattery, inputs, x, s);
      SilentMore(Known(states0, s), cfg.lostLinkAfter, inputs, x, s);
      assert SeenBy(Known(states0, s), inputs, s) == Known(states, s).lastSeen;
    }
  }
}
