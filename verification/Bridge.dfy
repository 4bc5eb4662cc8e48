/** The CS API bridge: keeps an external server informed of the snapshots it is shown. */
module Bridges {
  import opened Items
  import opened Posts
  import opened Chores
  import opened PostFields

  /** One bridge; server says how its n-th request is answered, and log is every request
      with what came of it. */
  class Bridge {
    const server: nat -> Response
    const interval: int
    var log: seq<Attempt>

    var systems: map<string, string>
    var datastreams: map<string, map<Metric, string>>
    var lastObservations: map<string, Time>
    var alertsPosted: set<string>
    var controlStreams: map<string, string>
    var commandsPosted: set<string>
    var copSystems: map<string, string>
    var copDatastreams: map<string, string>
    var markersPosted: set<string>
    var messagesPosted: set<string>

    function State(): Caches
      reads this
    {
      Caches(systems, datastreams, lastObservations, alertsPosted, controlStreams, commandsPosted,
             copSystems, copDatastreams, markersPosted, messagesPosted)
    }

    ghost predicate Valid()
      reads this
    {
      interval > 0 && Sound(log, State(), interval) && Answered(log, server)
    }

    constructor (observationInterval: int, answers: nat -> Response)
      ensures Valid() && log == [] && State() == EMPTY && server == answers
      ensures interval == if observationInterval <= 0 then 5000 else observationInterval
    {
      server := answers;
      interval := if observationInterval <= 0 then 5000 else observationInterval;
      log := [];
      systems, datastreams, lastObservations := map[], map[], map[];
      alertsPosted, controlStreams, commandsPosted := {}, map[], {};
      copSystems, copDatastreams := map[], map[];
      markersPosted, messagesPosted := {}, {};
      new;
      NothingSent(interval);
    }

    /** A request succeeds when an answer comes that says created, or that says conflict
        and names what is there. */
    method PostJSON(p: Post) returns (result: Option<string>)
      requires Answered(log, server)
      modifies this`log
      ensures Answered(log, server)
      ensures var answer := server(|old(log)|);
              && (result.Some? <==>
                  answer.Response? && (answer.status == 201 || (answer.status == 409 && answer.id != "")))
              && (result.Some? ==> result.value == answer.id)
      ensures log == old(log) + [Attempt(p, result)]
    {
      result := server(|log|).Result();
      log := log + [Attempt(p, result)];
    }

    // ---- Vehicles ----

    method EnsureSystem(v: VehicleView) returns (id: Option<string>)
      requires Valid()
      modifies this`log, this`systems
      ensures Valid() && Stepped(old(log), old(State()), log, State(), id.Some?)
      ensures id.Some? ==> id.value != "" && Entry(systems, v.entity) == id.value
      ensures old(Entry(systems, v.entity)) != "" ==> |log| == |old(log)|
      ensures old(Entry(systems, v.entity)) == "" ==>
        |log| == |old(log)| + 1 && log[|old(log)|].post == System(v.entity, v.token)
    {
      hide Answered, Sound, Stepped;
      if Entry(systems, v.entity) != "" {
        NoStep(log, State());
        return Some(Entry(systems, v.entity));
      }
      ghost var log0, c0 := log, State();
      var result := PostJSON(System(v.entity, v.token));
      SystemSent(log0, c0, interval, v.entity, v.token, result);
      if IdIn(result) == "" { return None; }
      systems := systems[v.entity := result.value];
      return result;
    }

    method EnsureDatastream(system: string, v: VehicleView, m: Metric) returns (ok: bool)
      requires Valid() && system != "" && Entry(systems, v.entity) == system
      modifies this`log, this`datastreams
      ensures Valid() && Stepped(old(log), old(State()), log, State(), ok)
      ensures ok ==> State().StreamOf(v.entity, m) != ""
      ensures forall n :: n != m ==> State().StreamOf(v.entity, n) == old(State().StreamOf(v.entity, n))
      ensures |log| == |old(log)| <==> old(State().StreamOf(v.entity, m)) != ""
      ensures |old(log)| <= |log| <= |old(log)| + 1
      ensures |log| != |old(log)| ==> log[|old(log)|].post == Datastream(v.entity, m, v.DatastreamID(m), system)
    {
      hide Answered, Sound, Stepped, VehicleView.DatastreamID;
      ghost var log0, c0 := log, State();
      if State().StreamOf(v.entity, m) != "" {
        NoStep(log, State());
        return true;
      }
      var id := v.DatastreamID(m);
      var result := PostJSON(Datastream(v.entity, m, id, system));
      DatastreamSent(log0, c0, interval, v.entity, m, id, system, result);
      if result.None? { return false; }
      var streams := if v.entity in datastreams then datastreams[v.entity] else map[];
      datastreams := datastreams[v.entity := streams[m := id]];
      return true;
    }

    method EnsureDatastreams(system: string, v: VehicleView) returns (ok: bool)
      requires Valid() && system != "" && Entry(systems, v.entity) == system
      modifies this`log, this`datastreams
      ensures Valid() && Stepped(old(log), old(State()), log, State(), ok)
      ensures ok ==> forall m :: State().StreamOf(v.entity, m) != ""
      ensures old(forall m :: State().StreamOf(v.entity, m) != "") ==> |log| == |old(log)|
      ensures forall i :: |old(log)| <= i < |log| ==> AboutVehicle(v, log[i].post)
    {
      hide Answered, Sound, Stepped, Caches.StreamOf, VehicleView.DatastreamID, Entry;
      ghost var log0, c0 := log, State();
      NoStep(log, State());
      for k := 0 to |METRICS|
        invariant Valid() && Stepped(log0, c0, log, State(), true)
        invariant forall j :: 0 <= j < k ==> State().StreamOf(v.entity, METRICS[j]) != ""
        invariant (forall m :: c0.StreamOf(v.entity, m) != "") ==> |log| == |log0|
        invariant |log0| <= |log|
        invariant forall i :: |log0| <= i < |log| ==> AboutVehicle(v, log[i].post)
      {
        ghost var log1, c1 := log, State();
        SamePrefix(log0, c0, log1, c1, true);
        ok := EnsureDatastream(system, v, METRICS[k]);
        StepsChain(log0, c0, log1, c1, log, State(), ok);
        SamePrefix(log1, c1, log, State(), ok);
        if !ok { return; }
      }
      EveryStream(State(), v);
      return true;
    }

    method PostDueObservation(v: VehicleView, m: Metric) returns (ok: bool)
      requires Valid() && v.lastSeen != ZERO_TIME
      modifies this`log, this`lastObservations
      ensures Valid() && Stepped(old(log), old(State()), log, State(), ok)
      ensures ok ==> MetricQuiet(State(), v, m, interval)
      ensures forall s :: State().Last(s) == old(State().Last(s)) || State().Last(s) == v.lastSeen
      ensures |log| == |old(log)| <==> old(MetricQuiet(State(), v, m, interval))
      ensures |old(log)| <= |log| <= |old(log)| + 1
      ensures |log| != |old(log)| ==>
        log[|old(log)|].post == Observation(v.entity, m, State().StreamOf(v.entity, m), v.lastSeen, v.Value(m))
    {
      hide Answered, Sound, Stepped, VehicleView.Value;
      ghost var log0, c0 := log, State();
      var stream := State().StreamOf(v.entity, m);
      if stream == "" || !State().Due(stream, v.lastSeen, interval) {
        NoStep(log, State());
        return true;
      }
      var result := PostJSON(Observation(v.entity, m, stream, v.lastSeen, v.Value(m)));
      ObservationSent(log0, c0, interval, v.entity, m, stream, v.lastSeen, v.Value(m), result);
      if result.None? { return false; }
      lastObservations := lastObservations[stream := v.lastSeen];
      return true;
    }

    method PostDueObservations(v: VehicleView) returns (ok: bool)
      requires Valid() && v.lastSeen != ZERO_TIME
      modifies this`log, this`lastObservations
      ensures Valid() && Stepped(old(log), old(State()), log, State(), ok)
      ensures ok ==> forall m :: MetricQuiet(State(), v, m, interval)
      ensures old(forall m :: MetricQuiet(State(), v, m, interval)) ==> |log| == |old(log)|
      ensures forall i :: |old(log)| <= i < |log| ==> AboutVehicle(v, log[i].post)
    {
      hide Answered, Sound, Stepped, MetricQuiet, VehicleView.Value, Caches.StreamOf, Caches.Last;
      ghost var log0, c0 := log, State();
      NoStep(log, State());
      for k := 0 to |METRICS|
        invariant Valid() && Stepped(log0, c0, log, State(), true)
        invariant forall j :: 0 <= j < k ==> MetricQuiet(State(), v, METRICS[j], interval)
        invariant (forall m :: MetricQuiet(c0, v, m, interval)) ==> |log| == |log0|
        invariant |log0| <= |log|
        invariant forall i :: |log0| <= i < |log| ==> AboutVehicle(v, log[i].post)
      {
        ghost var log1, c1 := log, State();
        SamePrefix(log0, c0, log1, c1, true);
        ok := PostDueObservation(v, METRICS[k]);
        StepsChain(log0, c0, log1, c1, log, State(), ok);
        SamePrefix(log1, c1, log, State(), ok);
        if !ok { return; }
        StillQuiet(c1, State(), v, k, interval);
      }
      EveryMetricQuiet(State(), v, interval);
      return true;
    }

    method SyncVehicle(v: VehicleView) returns (ok: bool)
      requires Valid() && v.lastSeen != ZERO_TIME
      modifies this`log, this`systems, this`datastreams, this`lastObservations
      ensures Valid() && Stepped(old(log), old(State()), log, State(), ok)
      ensures ok ==> VehicleSettled(State(), v, interval)
      ensures old(VehicleSettled(State(), v, interval)) ==> |log| == |old(log)|
      ensures forall i :: |old(log)| <= i < |log| ==> AboutVehicle(v, log[i].post)
    {
      hide Valid, Stepped, MetricQuiet, Entry, Caches.StreamOf;
      ghost var log0, c0 := log, State();
      var system := EnsureSystem(v);
      ghost var log1, c1 := log, State();
      SamePrefix(log0, c0, log1, c1, system.Some?);
      if system.None? { return false; }
      ok := EnsureDatastreams(system.value, v);
      ghost var log2, c2 := log, State();
      SamePrefix(log1, c1, log2, c2, ok);
      StepsChain(log0, c0, log1, c1, log2, c2, ok);
      if !ok { return; }
      ok := PostDueObservations(v);
      SameStreams(c2, State());
      SamePrefix(log2, c2, log, State(), ok);
      StepsChain(log0, c0, log2, c2, log, State(), ok);
    }

    // ---- Alerts and commands ----

    method SendAlert(v: VehicleView, system: string, alert: AlertView) returns (ok: bool)
      requires Valid() && system != "" && Entry(systems, v.entity) == system && alert.entity !in alertsPosted
      modifies this`log, this`alertsPosted
      ensures Valid() && Stepped(old(log), old(State()), log, State(), ok)
      ensures ok ==> alert.entity in State().alertsPosted
      ensures |log| == |old(log)| + 1 && log[|old(log)|].post == AlertEvent(v.entity, system, alert)
    {
      hide Answered, Sound, Stepped;
      ghost var log0, c0 := log, State();
      var result := PostJSON(AlertEvent(v.entity, system, alert));
      AlertSent(log0, c0, interval, v.entity, system, alert, result);
      if result.None? { return false; }
      alertsPosted := alertsPosted + {alert.entity};
      return true;
    }

    method PostAlertEvent(known: map<string, VehicleView>, alert: AlertView) returns (ok: bool)
      requires Valid()
      modifies this`log, this`systems, this`alertsPosted
      ensures Valid() && Stepped(old(log), old(State()), log, State(), ok)
      ensures ok ==> AlertSettled(State(), known, alert)
      ensures |log| == |old(log)| <==> old(AlertSettled(State(), known, alert))
      ensures forall i :: |old(log)| <= i < |log| ==> AboutAlert(known, alert, log[i].post)
    {
      hide Valid, Stepped, Entry;
      ghost var log0, c0 := log, State();
      if alert.entity in alertsPosted || alert.subject !in known {
        NoStep(log, State());
        return true;
      }
      var v := known[alert.subject];
      var system := EnsureSystem(v);
      ghost var log1, c1 := log, State();
      SamePrefix(log0, c0, log1, c1, system.Some?);
      if system.None? { return false; }
      ok := SendAlert(v, system.value, alert);
      SamePrefix(log1, c1, log, State(), ok);
      StepsChain(log0, c0, log1, c1, log, State(), ok);
    }

    method EnsureControlStream(system: string, v: VehicleView) returns (id: Option<string>)
      requires Valid() && system != "" && Entry(systems, v.entity) == system
      modifies this`log, this`controlStreams
      ensures Valid() && Stepped(old(log), old(State()), log, State(), id.Some?)
      ensures id.Some? ==> id.value != "" && Entry(controlStreams, v.entity) == id.value
      ensures old(Entry(controlStreams, v.entity)) != "" ==> |log| == |old(log)|
      ensures old(Entry(controlStreams, v.entity)) == "" ==>
        && |log| == |old(log)| + 1
        && log[|old(log)|].post == ControlStream(v.entity, v.ControlStreamID(), system)
    {
      hide Answered, Sound, Stepped, VehicleView.ControlStreamID;
      if Entry(controlStreams, v.entity) != "" {
        NoStep(log, State());
        return Some(Entry(controlStreams, v.entity));
      }
      ghost var log0, c0 := log, State();
      var stream := v.ControlStreamID();
      var result := PostJSON(ControlStream(v.entity, stream, system));
      ControlStreamSent(log0, c0, interval, v.entity, stream, system, result);
      if result.None? { return None; }
      controlStreams := controlStreams[v.entity := stream];
      return Some(stream);
    }

    method SendCommand(v: VehicleView, stream: string, command: CommandView) returns (ok: bool)
      requires Valid() && stream != "" && Entry(controlStreams, v.entity) == stream
      requires command.entity !in commandsPosted
      modifies this`log, this`commandsPosted
      ensures Valid() && Stepped(old(log), old(State()), log, State(), ok)
      ensures ok ==> command.entity in State().commandsPosted
      ensures |log| == |old(log)| + 1 && log[|old(log)|].post == Command(v.entity, stream, command)
    {
      hide Answered, Sound, Stepped;
      ghost var log0, c0 := log, State();
      var result := PostJSON(Command(v.entity, stream, command));
      CommandSent(log0, c0, interval, v.entity, stream, command, result);
      if result.None? { return false; }
      commandsPosted := commandsPosted + {command.entity};
      return true;
    }

    method PostCommand(known: map<string, VehicleView>, command: CommandView) returns (ok: bool)
      requires Valid()
      modifies this`log, this`systems, this`controlStreams, this`commandsPosted
      ensures Valid() && Stepped(old(log), old(State()), log, State(), ok)
      ensures ok ==> CommandSettled(State(), known, command)
      ensures |log| == |old(log)| <==> old(CommandSettled(State(), known, command))
      ensures forall i :: |old(log)| <= i < |log| ==> AboutCommand(known, command, log[i].post)
    {
      hide Valid, Stepped, Entry, VehicleView.ControlStreamID;
      ghost var log0, c0 := log, State();
      if command.entity in commandsPosted || command.target !in known {
        NoStep(log, State());
        return true;
      }
      var v := known[command.target];
      var system := EnsureSystem(v);
      ghost var log1, c1 := log, State();
      SamePrefix(log0, c0, log1, c1, system.Some?);
      if system.None? { return false; }
      var stream := EnsureControlStream(system.value, v);
      ghost var log2, c2 := log, State();
      SamePrefix(log1, c1, log2, c2, stream.Some?);
      StepsChain(log0, c0, log1, c1, log2, c2, stream.Some?);
      if stream.None? { return false; }
      ok := SendCommand(v, stream.value, command);
      SamePrefix(log2, c2, log, State(), ok);
      StepsChain(log0, c0, log2, c2, log, State(), ok);
    }

    // ---- Operators, markers and messages ----

    method EnsureCOPSystem(key: string, uid: string, name: string, place: Option<Place>) returns (id: Option<string>)
      requires Valid()
      modifies this`log, this`copSystems
      ensures Valid() && Stepped(old(log), old(State()), log, State(), id.Some?)
      ensures id.Some? ==> id.value != "" && Entry(copSystems, key) == id.value
      ensures old(Entry(copSystems, key)) != "" ==> |log| == |old(log)|
      ensures old(Entry(copSystems, key)) == "" ==>
        |log| == |old(log)| + 1 && log[|old(log)|].post == SystemFor(key, uid, name, place)
    {
      hide Answered, Sound, Stepped, FirstNonEmpty, SystemFor;
      if Entry(copSystems, key) != "" {
        NoStep(log, State());
        return Some(Entry(copSystems, key));
      }
      ghost var log0, c0 := log, State();
      var named := if uid == "" then key else uid;
      var titled := FirstNonEmpty([name, named]);
      var result := PostJSON(COPSystem(key, named, titled, place));
      SystemForIs(key, uid, name, place);
      COPSystemSent(log0, c0, interval, key, named, titled, place, result);
      if IdIn(result) == "" { return None; }
      copSystems := copSystems[key := result.value];
      return result;
    }

    method EnsureOperatorPositionDatastream(system: string, o: View) returns (ok: bool)
      requires Valid() && system != "" && Entry(copSystems, o.entity) == system
      modifies this`log, this`copDatastreams
      ensures Valid() && Stepped(old(log), old(State()), log, State(), ok)
      ensures ok ==> Entry(copDatastreams, o.entity) != ""
      ensures |log| == |old(log)| <==> old(Entry(copDatastreams, o.entity)) != ""
      ensures forall i :: |old(log)| <= i < |log| ==> AboutOperator(o, log[i].post)
    {
      hide Answered, Sound, Stepped, OperatorSystem, View.PositionStreamID;
      if Entry(copDatastreams, o.entity) != "" {
        NoStep(log, State());
        return true;
      }
      ghost var log0, c0 := log, State();
      var id := o.PositionStreamID();
      var result := PostJSON(PositionStream(o.entity, id, system));
      PositionStreamSent(log0, c0, interval, o.entity, id, system, result);
      if result.None? { return false; }
      copDatastreams := copDatastreams[o.entity := id];
      return true;
    }

    method PostOperatorPositionObservation(o: View) returns (ok: bool)
      requires Valid() && o.lastSeen != ZERO_TIME
      modifies this`log, this`lastObservations
      ensures Valid() && Stepped(old(log), old(State()), log, State(), ok)
      ensures var stream := Entry(copDatastreams, o.entity);
              && (ok ==> stream == "" || o.place.None? || !State().Due(stream, o.lastSeen, interval))
              && (|log| == |old(log)| <==>
                    stream == "" || o.place.None? || !old(State()).Due(stream, o.lastSeen, interval))
      ensures forall i :: |old(log)| <= i < |log| ==> AboutOperator(o, log[i].post)
    {
      hide Answered, Sound, Stepped, OperatorSystem, Entry, View.PositionStreamID;
      ghost var log0, c0 := log, State();
      var stream := Entry(copDatastreams, o.entity);
      if stream == "" || o.place.None? || !State().Due(stream, o.lastSeen, interval) {
        NoStep(log, State());
        return true;
      }
      var result := PostJSON(PositionObservation(o.entity, stream, o.lastSeen, o.place));
      PositionSent(log0, c0, interval, o.entity, stream, o.lastSeen, o.place, result);
      if result.None? { return false; }
      lastObservations := lastObservations[stream := o.lastSeen];
      return true;
    }

    method PostMarkerFeature(m: View) returns (ok: bool)
      requires Valid()
      modifies this`log, this`markersPosted
      ensures Valid() && Stepped(old(log), old(State()), log, State(), ok)
      ensures ok ==> m.entity in markersPosted
      ensures |log| == |old(log)| <==> m.entity in old(markersPosted)
      ensures forall i :: |old(log)| <= i < |log| ==> AboutMarker(m, log[i].post)
    {
      hide Answered, Sound, Stepped, FirstNonEmpty;
      if m.entity in markersPosted {
        NoStep(log, State());
        return true;
      }
      ghost var log0, c0 := log, State();
      var name := FirstNonEmpty([m.title, m.uid]);
      var result := PostJSON(Marker(m, name));
      MarkerSent(log0, c0, interval, m, name, result);
      if result.None? { return false; }
      markersPosted := markersPosted + {m.entity};
      return true;
    }

    method SendMessage(key: string, system: string, m: View) returns (ok: bool)
      requires Valid() && system != "" && Entry(copSystems, key) == system && m.entity !in messagesPosted
      modifies this`log, this`messagesPosted
      ensures Valid() && Stepped(old(log), old(State()), log, State(), ok)
      ensures ok ==> m.entity in messagesPosted
      ensures |log| == |old(log)| + 1 && log[|old(log)|].post == Message(key, system, m)
    {
      hide Answered, Sound, Stepped;
      ghost var log0, c0 := log, State();
      var result := PostJSON(Message(key, system, m));
      MessageSent(log0, c0, interval, key, system, m, result);
      if result.None? { return false; }
      messagesPosted := messagesPosted + {m.entity};
      return true;
    }

    /** What to call the system of a message's sender, as far as is known. */
    method NameSender(operator: View, m: View) returns (key: string, uid: string, name: string, place: Option<Place>)
      ensures AboutMessage(operator, m, SystemFor(key, uid, name, place))
      ensures SystemFor(key, uid, name, place).COPSystem?
      ensures forall system :: AboutMessage(operator, m, Message(key, system, m))
    {
      hide FirstNonEmpty;
      key, uid, name, place := m.senderEntity, m.senderUID, m.callsign, operator.place;
      if key == "" { key := "message-sender:" + FirstNonEmpty([uid, m.uid]); }
      if uid == "" { uid := FirstNonEmpty([operator.uid, m.uid]); }
      if name == "" { name := FirstNonEmpty([operator.callsign, uid]); }
      if place.None? { place := m.place; }
    }

    method PostCOPMessage(operator: View, m: View) returns (ok: bool)
      requires Valid()
      modifies this`log, this`copSystems, this`messagesPosted
      ensures Valid() && Stepped(old(log), old(State()), log, State(), ok)
      ensures ok ==> m.entity in messagesPosted
      ensures |log| == |old(log)| <==> m.entity in old(messagesPosted)
      ensures forall i :: |old(log)| <= i < |log| ==> AboutMessage(operator, m, log[i].post)
    {
      hide Valid, Stepped, FirstNonEmpty, Entry, SystemFor, AboutMessage, MessageSystem, SenderKey;
      ghost var log0, c0 := log, State();
      if m.entity in messagesPosted {
        NoStep(log, State());
        return true;
      }
      var key, uid, name, place := NameSender(operator, m);
      var system := EnsureCOPSystem(key, uid, name, place);
      ghost var log1, c1 := log, State();
      SamePrefix(log0, c0, log1, c1, system.Some?);
      if system.None? { return false; }
      ok := SendMessage(key, system.value, m);
      SamePrefix(log1, c1, log, State(), ok);
      StepsChain(log0, c0, log1, c1, log, State(), ok);
    }

    // ---- Sync ----

    method SyncVehicles(s: Snapshot) returns (ok: bool, known: map<string, VehicleView>)
      requires Valid()
      modifies this`log, this`systems, this`datastreams, this`lastObservations
      ensures Valid() && Worked(s, interval, VehicleChores(s.vehicles), old(log), old(State()), log, State(), ok)
      ensures ok ==> known == ByEntity(s.vehicles)
    {
      hide Valid, Stepped, Worked, Grown, State, AboutVehicle, VehicleSettled, VehicleChores, ByEntity;
      ghost var log0, c0 := log, State();
      NoChore(s, interval, log, State());
      known := map[];
      NoVehicles(s.vehicles);
      for k := 0 to |s.vehicles|
        invariant known == ByEntity(s.vehicles[..k])
        invariant Valid() && Worked(s, interval, VehicleChores(s.vehicles)[..k], log0, c0, log, State(), true)
      {
        var v := s.vehicles[k];
        ByEntityMore(s.vehicles, k);
        known := known[v.entity := v];
        ghost var log1, c1 := log, State();
        if v.lastSeen == ZERO_TIME {
          NeverSeen(log, State(), v, interval);
          ok := true;
        } else {
          ok := SyncVehicle(v);
        }
        NextChore(s, interval, VehicleChores(s.vehicles), k, log0, c0, log1, c1, log, State(), ok);
        if !ok { return; }
      }
      assert VehicleChores(s.vehicles)[..|s.vehicles|] == VehicleChores(s.vehicles);
      assert s.vehicles[..|s.vehicles|] == s.vehicles;
      return true, known;
    }

    method SyncAlerts(s: Snapshot, known: map<string, VehicleView>) returns (ok: bool)
      requires Valid() && known == ByEntity(s.vehicles)
      modifies this`log, this`systems, this`alertsPosted
      ensures Valid() && Worked(s, interval, AlertChores(s.alerts), old(log), old(State()), log, State(), ok)
    {
      hide Valid, Stepped, Worked, Grown, State, AboutAlert, AlertSettled, ByEntity, AlertChores;
      ghost var log0, c0 := log, State();
      NoChore(s, interval, log, State());
      for k := 0 to |s.alerts|
        invariant Valid() && Worked(s, interval, AlertChores(s.alerts)[..k], log0, c0, log, State(), true)
      {
        ghost var log1, c1 := log, State();
        ok := PostAlertEvent(known, s.alerts[k]);
        NextChore(s, interval, AlertChores(s.alerts), k, log0, c0, log1, c1, log, State(), ok);
        if !ok { return; }
      }
      assert AlertChores(s.alerts)[..|s.alerts|] == AlertChores(s.alerts);
      return true;
    }

    method SyncCommands(s: Snapshot, known: map<string, VehicleView>) returns (ok: bool)
      requires Valid() && known == ByEntity(s.vehicles)
      modifies this`log, this`systems, this`controlStreams, this`commandsPosted
      ensures Valid() && Worked(s, interval, CommandChores(s.commands), old(log), old(State()), log, State(), ok)
    {
      hide Valid, Stepped, Worked, Grown, State, AboutCommand, CommandSettled, ByEntity, CommandChores;
      ghost var log0, c0 := log, State();
      NoChore(s, interval, log, State());
      for k := 0 to |s.commands|
        invariant Valid() && Worked(s, interval, CommandChores(s.commands)[..k], log0, c0, log, State(), true)
      {
        ghost var log1, c1 := log, State();
        ok := PostCommand(known, s.commands[k]);
        NextChore(s, interval, CommandChores(s.commands), k, log0, c0, log1, c1, log, State(), ok);
        if !ok { return; }
      }
      assert CommandChores(s.commands)[..|s.commands|] == CommandChores(s.commands);
      return true;
    }

    method SyncOperator(o: View) returns (ok: bool)
      requires Valid() && o.lastSeen != ZERO_TIME
      modifies this`log, this`copSystems, this`copDatastreams, this`lastObservations
      ensures Valid() && Stepped(old(log), old(State()), log, State(), ok)
      ensures ok ==> OperatorSettled(State(), o, interval)
      ensures old(OperatorSettled(State(), o, interval)) ==> |log| == |old(log)|
      ensures forall i :: |old(log)| <= i < |log| ==> AboutOperator(o, log[i].post)
    {
      hide Valid, Stepped, Entry, FirstNonEmpty;
      ghost var log0, c0 := log, State();
      var system := EnsureCOPSystem(o.entity, o.uid, FirstNonEmpty([o.callsign, o.uid]), o.place);
      ghost var log1, c1 := log, State();
      SamePrefix(log0, c0, log1, c1, system.Some?);
      if system.None? { return false; }
      ok := EnsureOperatorPositionDatastream(system.value, o);
      ghost var log2, c2 := log, State();
      SamePrefix(log1, c1, log2, c2, ok);
      StepsChain(log0, c0, log1, c1, log2, c2, ok);
      if !ok { return; }
      ok := PostOperatorPositionObservation(o);
      SamePrefix(log2, c2, log, State(), ok);
      StepsChain(log0, c0, log2, c2, log, State(), ok);
    }

    method SyncOperators(s: Snapshot) returns (ok: bool, byEntity: map<string, View>, byUID: map<string, View>)
      requires Valid()
      modifies this`log, this`copSystems, this`copDatastreams, this`lastObservations
      ensures Valid() && Worked(s, interval, OperatorChores(s.operators), old(log), old(State()), log, State(), ok)
      ensures ok ==> byEntity == ByKey(s.operators, EntityOf) && byUID == ByKey(s.operators, UIDOf)
    {
      hide Valid, Stepped, Worked, Grown, State, AboutOperator, OperatorSettled, OperatorChores, ByKey;
      ghost var log0, c0 := log, State();
      NoChore(s, interval, log, State());
      byEntity, byUID := map[], map[];
      NoOperators(s.operators);
      for k := 0 to |s.operators|
        invariant byEntity == ByKey(s.operators[..k], EntityOf) && byUID == ByKey(s.operators[..k], UIDOf)
        invariant Valid() && Worked(s, interval, OperatorChores(s.operators)[..k], log0, c0, log, State(), true)
      {
        var o := s.operators[k];
        ByKeyMore(s.operators, k, EntityOf);
        ByKeyMore(s.operators, k, UIDOf);
        byEntity, byUID := byEntity[o.entity := o], byUID[o.uid := o];
        ghost var log1, c1 := log, State();
        if o.lastSeen == ZERO_TIME {
          OperatorNeverSeen(log, State(), o, interval);
          ok := true;
        } else {
          ok := SyncOperator(o);
        }
        NextChore(s, interval, OperatorChores(s.operators), k, log0, c0, log1, c1, log, State(), ok);
        if !ok { return; }
      }
      assert OperatorChores(s.operators)[..|s.operators|] == OperatorChores(s.operators);
      assert s.operators[..|s.operators|] == s.operators;
      return true, byEntity, byUID;
    }

    method SyncMarkers(s: Snapshot) returns (ok: bool)
      requires Valid()
      modifies this`log, this`markersPosted
      ensures Valid() && Worked(s, interval, MarkerChores(s.markers), old(log), old(State()), log, State(), ok)
    {
      hide Valid, Stepped, Worked, Grown, AboutMarker, MarkerChores;
      ghost var log0, c0 := log, State();
      NoChore(s, interval, log, State());
      for k := 0 to |s.markers|
        invariant Valid() && Worked(s, interval, MarkerChores(s.markers)[..k], log0, c0, log, State(), true)
      {
        ghost var log1, c1 := log, State();
        ok := PostMarkerFeature(s.markers[k]);
        NextChore(s, interval, MarkerChores(s.markers), k, log0, c0, log1, c1, log, State(), ok);
        if !ok { return; }
      }
      assert MarkerChores(s.markers)[..|s.markers|] == MarkerChores(s.markers);
      return true;
    }

    method SyncMessages(s: Snapshot, byEntity: map<string, View>, byUID: map<string, View>) returns (ok: bool)
      requires Valid() && byEntity == ByKey(s.operators, EntityOf) && byUID == ByKey(s.operators, UIDOf)
      modifies this`log, this`copSystems, this`messagesPosted
      ensures Valid() && Worked(s, interval, MessageChores(s.messages), old(log), old(State()), log, State(), ok)
    {
      hide Valid, Stepped, Worked, Grown, AboutMessage, ByKey, MessageChores;
      ghost var log0, c0 := log, State();
      NoChore(s, interval, log, State());
      for k := 0 to |s.messages|
        invariant Valid() && Worked(s, interval, MessageChores(s.messages)[..k], log0, c0, log, State(), true)
      {
        var m := s.messages[k];
        var operator :=
          if m.senderEntity in byEntity then byEntity[m.senderEntity]
          else if m.senderUID in byUID then byUID[m.senderUID]
          else NO_VIEW;
        ghost var log1, c1 := log, State();
        ok := PostCOPMessage(operator, m);
        NextChore(s, interval, MessageChores(s.messages), k, log0, c0, log1, c1, log, State(), ok);
        if !ok { return; }
      }
      assert MessageChores(s.messages)[..|s.messages|] == MessageChores(s.messages);
      return true;
    }

    /** Posts what the snapshot has that was not posted yet, up to the first failure. */
    method Sync(s: Snapshot) returns (ok: bool)
      requires Valid()
      modifies this
      ensures Valid() && Stepped(old(log), old(State()), log, State(), ok)
      ensures ok ==> Settled(s, State(), interval)
      ensures |log| == |old(log)| <==> Settled(s, old(State()), interval)
      ensures forall i :: |old(log)| <= i < |log| ==> Describes(s, log[i].post)
      ensures ok <==> forall i :: |old(log)| <= i < |log| ==>
        && server(i).Response?
        && (server(i).status == 201 || (server(i).status == 409 && server(i).id != ""))
        && (log[i].post.System? || log[i].post.COPSystem? ==> server(i).id != "")
      ensures (forall n: nat :: |old(log)| <= n ==>
                 server(n).Response? && server(n).status == 201 && server(n).id != "") ==>
        ok && Settled(s, State(), interval)
    {
      hide Stepped, Sound, Answered, Worked, State, ByEntity, ByKey, ChoresOf, Settled, Describes, VehicleChores,
        AlertChores, CommandChores, OperatorChores, MarkerChores, MessageChores;
      ghost var log0, c0 := log, State();
      ok := SyncAll(s);
      WorkedExact(s, interval, log0, c0, log, State(), ok);
      WentWellExact(log0, c0, log, State(), ok, server);
    }

    method SyncAll(s: Snapshot) returns (ok: bool)
      requires Valid()
      modifies this
      ensures Valid() && Worked(s, interval, ChoresOf(s), old(log), old(State()), log, State(), ok)
    {
      hide Valid, Worked, State, ByEntity, ByKey, ChoresOf, VehicleChores, AlertChores,
        CommandChores, OperatorChores, MarkerChores, MessageChores;
      Stages(s);
      ghost var log0, c0, done := log, State(), VehicleChores(s.vehicles);
      var known: map<string, VehicleView>;
      ok, known := SyncVehicles(s);
      if !ok { GaveUp(s, interval, done, ChoresOf(s), log0, c0, log, State()); return; }
      ghost var log1, c1 := log, State();
      ok := SyncAlerts(s, known);
      NextStretch(s, interval, done, AlertChores(s.alerts), log0, c0, log1, c1, log, State(), ok);
      if !ok { return; }
      done, log1, c1 := done + AlertChores(s.alerts), log, State();
      ok := SyncCommands(s, known);
      NextStretch(s, interval, done, CommandChores(s.commands), log0, c0, log1, c1, log, State(), ok);
      if !ok { return; }
      done, log1, c1 := done + CommandChores(s.commands), log, State();
      var byEntity, byUID;
      ok, byEntity, byUID := SyncOperators(s);
      NextStretch(s, interval, done, OperatorChores(s.operators), log0, c0, log1, c1, log, State(), ok);
      if !ok { return; }
      done, log1, c1 := done + OperatorChores(s.operators), log, State();
      ok := SyncMarkers(s);
      NextStretch(s, interval, done, MarkerChores(s.markers), log0, c0, log1, c1, log, State(), ok);
      if !ok { return; }
      done, log1, c1 := done + MarkerChores(s.markers), log, State();
      ok := SyncMessages(s, byEntity, byUID);
      IsAllChores(s, done);
      NextStretch(s, interval, done, MessageChores(s.messages), log0, c0, log1, c1, log, State(), ok);
    }

    /** Any run of syncs, whatever the snapshots and the answers; the k-th took the log
        from the k-th mark to the next. Once a snapshot has been posted in full, syncs
        of it send nothing, whatever came between. */
    method Run(snapshots: seq<Snapshot>) returns (oks: seq<bool>, marks: seq<nat>)
      requires Valid()
      modifies this
      ensures Valid() && old(log) <= log
      ensures Parented(log) && AtMostOnce(log) && Spaced(log, interval)
      ensures |oks| == |snapshots| && |marks| == |snapshots| + 1
      ensures marks[0] == |old(log)| && marks[|snapshots|] == |log|
      ensures forall k :: 0 <= k < |snapshots| ==> Synced(log, oks[k], snapshots[k], marks[k], marks[k + 1])
      ensures forall j, k :: 0 <= j < k < |snapshots| && oks[j] && snapshots[k] == snapshots[j] ==>
        oks[k] && marks[k + 1] == marks[k]
    {
      hide Sound, State, Settled, Describes, Grown, Synced;
      oks, marks := [], [|log|];
      for k := 0 to |snapshots|
        invariant Valid() && old(log) <= log && |oks| == k && |marks| == k + 1
        invariant marks[0] == |old(log)| && marks[k] == |log|
        invariant forall j :: 0 <= j < k ==> Synced(log, oks[j], snapshots[j], marks[j], marks[j + 1])
        invariant forall j :: 0 <= j < k && oks[j] ==> Settled(snapshots[j], State(), interval)
        invariant forall i, j :: 0 <= i < j < k && oks[i] && snapshots[j] == snapshots[i] ==>
          oks[j] && marks[j + 1] == marks[j]
      {
        ghost var log1, c1 := log, State();
        var ok := Sync(snapshots[k]);
        SamePrefix(log1, c1, log, State(), ok);
        forall j | 0 <= j < k ensures Synced(log, oks[j], snapshots[j], marks[j], marks[j + 1]) {
          StillSynced(log1, log, oks[j], snapshots[j], marks[j], marks[j + 1]);
        }
        IsSynced(log1, c1, log, State(), ok, snapshots[k]);
        forall j | 0 <= j < k && oks[j] ensures Settled(snapshots[j], State(), interval) {
          StaysSettled(snapshots[j], log1, c1, log, State(), ok, interval);
        }
        oks, marks := oks + [ok], marks + [|log|];
      }
      SoundMeans(log, State(), interval);
    }
  }

  /** What one sync of a run did between these two lengths of the log. */
  ghost predicate Synced(log: seq<Attempt>, ok: bool, s: Snapshot, from: nat, end: nat) {
    && from <= end <= |log|
    && (forall i :: from <= i < end ==> Describes(s, log[i].post))
    && (ok <==> forall i :: from <= i < end ==> log[i].Fine())
    && (!ok ==> forall i :: from <= i < end - 1 ==> log[i].Fine())
  }

  lemma IsSynced(log1: seq<Attempt>, c1: Caches, log: seq<Attempt>, c: Caches, ok: bool, s: Snapshot)
    requires Stepped(log1, c1, log, c, ok)
    requires forall i :: |log1| <= i < |log| ==> Describes(s, log[i].post)
    ensures Synced(log, ok, s, |log1|, |log|)
  {
  }

  lemma StaysSettled(s: Snapshot, log0: seq<Attempt>, c0: Caches, log: seq<Attempt>, c: Caches, ok: bool, interval: int)
    requires Stepped(log0, c0, log, c, ok) && Settled(s, c0, interval)
    ensures Settled(s, c, interval)
  {
    hide Quiet, ChoresOf, Grown;
    forall chore | chore in ChoresOf(s) ensures Quiet(chore, s, c, interval) {
      QuietStays(chore, s, c0, c, interval);
    }
  }

  lemma StillSynced(log1: seq<Attempt>, log: seq<Attempt>, ok: bool, s: Snapshot, from: nat, end: nat)
    requires Synced(log1, ok, s, from, end) && log1 <= log
    ensures Synced(log, ok, s, from, end)
  {
  }

  lemma SoundMeans(log: seq<Attempt>, c: Caches, interval: int)
    requires Sound(log, c, interval)
    ensures Parented(log) && AtMostOnce(log) && Spaced(log, interval)
  {
  }

  lemma IsAllChores(s: Snapshot, done: seq<Chore>)
    requires done == VehicleChores(s.vehicles) + AlertChores(s.alerts) + CommandChores(s.commands)
                     + OperatorChores(s.operators) + MarkerChores(s.markers)
    ensures done + MessageChores(s.messages) == ChoresOf(s)
  {
  }

  /** What was logged stays. */
  lemma SamePrefix(log0: seq<Attempt>, c0: Caches, log: seq<Attempt>, c: Caches, ok: bool)
    requires Stepped(log0, c0, log, c, ok)
    ensures |log0| <= |log| && forall i :: 0 <= i < |log0| ==> log[i] == log0[i]
    ensures |log| == |log0| ==> c == c0 && ok
  {
  }

  lemma StillQuiet(c: Caches, d: Caches, v: VehicleView, k: nat, interval: int)
    requires k < |METRICS| && d.datastreams == c.datastreams && interval > 0
    requires forall s :: d.Last(s) == c.Last(s) || d.Last(s) == v.lastSeen
    requires v.lastSeen != ZERO_TIME
    requires forall j :: 0 <= j < k ==> MetricQuiet(c, v, METRICS[j], interval)
    requires MetricQuiet(d, v, METRICS[k], interval)
    ensures forall j :: 0 <= j < k + 1 ==> MetricQuiet(d, v, METRICS[j], interval)
  {
  }

  lemma EveryStream(c: Caches, v: VehicleView)
    requires forall j :: 0 <= j < |METRICS| ==> c.StreamOf(v.entity, METRICS[j]) != ""
    ensures forall m :: c.StreamOf(v.entity, m) != ""
  {
    hide Caches.StreamOf;
    forall m ensures c.StreamOf(v.entity, m) != "" {
      match m
      case Battery => assert METRICS[0] == m;
      case Altitude => assert METRICS[1] == m;
      case GroundSpeed => assert METRICS[2] == m;
    }
  }

  lemma EveryMetricQuiet(c: Caches, v: VehicleView, interval: int)
    requires forall j :: 0 <= j < |METRICS| ==> MetricQuiet(c, v, METRICS[j], interval)
    ensures forall m :: MetricQuiet(c, v, m, interval)
  {
    hide MetricQuiet;
    forall m ensures MetricQuiet(c, v, m, interval) {
      match m
      case Battery => assert METRICS[0] == m;
      case Altitude => assert METRICS[1] == m;
      case GroundSpeed => assert METRICS[2] == m;
    }
  }

  lemma SystemForIs(key: string, uid: string, name: string, place: Option<Place>)
    ensures var named := if uid == "" then key else uid;
            SystemFor(key, uid, name, place) == COPSystem(key, named, FirstNonEmpty([name, named]), place)
  {
  }

  lemma NeverSeen(log: seq<Attempt>, c: Caches, v: VehicleView, interval: int)
    requires v.lastSeen == ZERO_TIME
    ensures VehicleSettled(c, v, interval) && Stepped(log, c, log, c, true)
  {
  }

  lemma OperatorNeverSeen(log: seq<Attempt>, c: Caches, o: View, interval: int)
    requires o.lastSeen == ZERO_TIME
    ensures OperatorSettled(c, o, interval) && Stepped(log, c, log, c, true)
  {
  }

  lemma SameStreams(c: Caches, d: Caches)
    requires c.datastreams == d.datastreams
    ensures forall e, m :: c.StreamOf(e, m) == d.StreamOf(e, m)
  {
  }

  lemma NoVehicles(vehicles: seq<VehicleView>)
    ensures ByEntity(vehicles[..0]) == map[]
  {
  }

  lemma NoOperators(operators: seq<View>)
    ensures ByKey(operators[..0], EntityOf) == map[] && ByKey(operators[..0], UIDOf) == map[]
  {
  }
}
