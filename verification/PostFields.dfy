/** What the requests, logs and settled snapshots of the bridge are, field by field. */
module PostFields {
  import opened Items
  import opened Posts
  import opened Chores
  import Text

  // ---- Texts ----

  /** The first text that is not blank, without the white space around it. */
  lemma {:induction false} FirstNonEmptyExact(values: seq<string>)
    ensures (forall i :: 0 <= i < |values| ==> Text.Blank(values[i])) ==> FirstNonEmpty(values) == ""
    ensures forall i :: 0 <= i < |values| && !Text.Blank(values[i])
                        && (forall j :: 0 <= j < i ==> Text.Blank(values[j])) ==>
      FirstNonEmpty(values) == Text.Trim(values[i])
  {
    hide Text.Blank, Text.Trim;
    if values != [] {
      FirstNonEmptyExact(values[1..]);
      forall i | 0 <= i < |values| && !Text.Blank(values[i]) && (forall j :: 0 <= j < i ==> Text.Blank(values[j]))
        ensures FirstNonEmpty(values) == Text.Trim(values[i])
      {
        if i > 0 {
          assert Text.Blank(values[0]);
          assert values[1..][i - 1] == values[i];
          assert forall j :: 0 <= j < i - 1 ==> values[1..][j] == values[j + 1];
        }
      }
    }
  }

  lemma DatastreamIDs(v: VehicleView)
    ensures v.DatastreamID(Battery) == "c360.semlink.robotics.csapi.datastream.battery-" + v.token
    ensures v.DatastreamID(Altitude) == "c360.semlink.robotics.csapi.datastream.altitude-" + v.token
    ensures v.DatastreamID(GroundSpeed) == "c360.semlink.robotics.csapi.datastream.ground-speed-" + v.token
  {
  }

  lemma OtherIDs(v: VehicleView, o: View)
    ensures v.ControlStreamID() == "c360.semlink.robotics.csapi.control." + v.token
    ensures o.PositionStreamID() == "c360.semlink.cop.csapi.datastream.position-" + o.token
  {
  }

  // ---- What a sync posts ----

  /** The last view of an entity in a list of vehicles. */
  ghost predicate LastOf(vehicles: seq<VehicleView>, entity: string, v: VehicleView) {
    exists i :: 0 <= i < |vehicles| && vehicles[i] == v && v.entity == entity
                && forall j :: i < j < |vehicles| ==> vehicles[j].entity != entity
  }

  lemma {:induction false} ByEntityExact(vehicles: seq<VehicleView>, entity: string)
    ensures entity in ByEntity(vehicles) <==> exists i :: 0 <= i < |vehicles| && vehicles[i].entity == entity
    ensures entity in ByEntity(vehicles) ==> LastOf(vehicles, entity, ByEntity(vehicles)[entity])
  {
    if vehicles != [] {
      var n := |vehicles| - 1;
      var before := vehicles[..n];
      ByEntityExact(before, entity);
      if vehicles[n].entity == entity {
        assert vehicles[n] == ByEntity(vehicles)[entity];
      } else if entity in ByEntity(before) {
        var v := ByEntity(before)[entity];
        var i :| 0 <= i < n && before[i] == v && v.entity == entity
                 && forall j :: i < j < n ==> before[j].entity != entity;
        assert vehicles[i] == v;
      }
    }
  }

  lemma {:induction false} ByKeyExact(operators: seq<View>, key: View -> string, k: string)
    ensures k in ByKey(operators, key) <==> exists i :: 0 <= i < |operators| && key(operators[i]) == k
    ensures k in ByKey(operators, key) ==>
      exists i :: 0 <= i < |operators| && operators[i] == ByKey(operators, key)[k] && key(operators[i]) == k
                  && forall j :: i < j < |operators| ==> key(operators[j]) != k
  {
    if operators != [] {
      var n := |operators| - 1;
      var before := operators[..n];
      ByKeyExact(before, key, k);
      if key(operators[n]) == k {
        assert operators[n] == ByKey(operators, key)[k];
      } else if k in ByKey(before, key) {
        var i :| 0 <= i < n && before[i] == ByKey(before, key)[k] && key(before[i]) == k
                 && forall j :: i < j < n ==> key(before[j]) != k;
        assert operators[i] == ByKey(operators, key)[k];
      }
    }
  }

  /** The sender of a message: the last operator of the entity it names, otherwise the last
      of the uid it names, otherwise nobody. */
  lemma SenderExact(operators: seq<View>, m: View)
    ensures var sender := SenderOf(operators, m);
      && ((exists i :: 0 <= i < |operators| && operators[i].entity == m.senderEntity) ==>
          exists i :: 0 <= i < |operators| && operators[i] == sender && sender.entity == m.senderEntity
                      && forall j :: i < j < |operators| ==> operators[j].entity != m.senderEntity)
      && ((forall i :: 0 <= i < |operators| ==> operators[i].entity != m.senderEntity)
          && (exists i :: 0 <= i < |operators| && operators[i].uid == m.senderUID) ==>
          exists i :: 0 <= i < |operators| && operators[i] == sender && sender.uid == m.senderUID
                      && forall j :: i < j < |operators| ==> operators[j].uid != m.senderUID)
      && ((forall i :: 0 <= i < |operators| ==>
             operators[i].entity != m.senderEntity && operators[i].uid != m.senderUID) ==>
          sender == View("", "", "", "", "", "", "", "", None, 0))
  {
    ByKeyExact(operators, EntityOf, m.senderEntity);
    ByKeyExact(operators, UIDOf, m.senderUID);
  }

  lemma ViewOf(s: Snapshot, chore: Chore)
    requires chore in ChoresOf(s)
    ensures match chore
            case SeeVehicle(v) => v in s.vehicles
            case TellAlert(a) => a in s.alerts
            case TellCommand(c) => c in s.commands
            case SeeOperator(o) => o in s.operators
            case TellMarker(m) => m in s.markers
            case TellMessage(m) => m in s.messages
  {
  }

  /** A request of a sync comes from one of its views. */
  lemma FromOneView(s: Snapshot, p: Post)
    requires Describes(s, p)
    ensures
      || (exists v :: v in s.vehicles && AboutVehicle(v, p))
      || (exists a :: a in s.alerts && AboutAlert(ByEntity(s.vehicles), a, p))
      || (exists c :: c in s.commands && AboutCommand(ByEntity(s.vehicles), c, p))
      || (exists o :: o in s.operators && AboutOperator(o, p))
      || (exists m :: m in s.markers && AboutMarker(m, p))
      || (exists m :: m in s.messages && AboutMessage(SenderOf(s.operators, m), m, p))
  {
    hide AboutVehicle, AboutAlert, AboutCommand, AboutOperator, AboutMarker, AboutMessage, ByEntity, SenderOf;
    hide ChoresOf;
    var chore :| chore in ChoresOf(s) && About(chore, s, p);
    ViewOf(s, chore);
  }

  /** What is posted of a vehicle: its system, its three streams and their readings. */
  lemma VehiclePosts(s: Snapshot, p: Post)
    requires Describes(s, p)
    ensures p.System? ==> exists v :: v in s.vehicles && p.entity == v.entity && p.uid == v.token
    ensures p.Datastream? ==> exists v :: v in s.vehicles && p.entity == v.entity && p.id == v.DatastreamID(p.metric)
    ensures p.Observation? ==>
      exists v :: v in s.vehicles && p.entity == v.entity && p.at == v.lastSeen
        && (p.metric.Battery? ==> p.value == v.battery as real)
        && (p.metric.Altitude? ==> p.value == v.altitude)
        && (p.metric.GroundSpeed? ==> p.value == v.groundSpeed)
  {
    hide Describes, VehicleView.DatastreamID, ByEntity, SenderOf;
    FromOneView(s, p);
    forall a: AlertView ensures a.subject in ByEntity(s.vehicles) ==> ByEntity(s.vehicles)[a.subject] in s.vehicles {
      ByEntityExact(s.vehicles, a.subject);
    }
    forall c: CommandView ensures c.target in ByEntity(s.vehicles) ==> ByEntity(s.vehicles)[c.target] in s.vehicles {
      ByEntityExact(s.vehicles, c.target);
    }
  }

  /** Alerts and commands go to the last view of their vehicle. */
  lemma AlertAndCommandPosts(s: Snapshot, p: Post)
    requires Describes(s, p)
    ensures p.AlertEvent? ==>
      p.alert in s.alerts && exists v :: LastOf(s.vehicles, p.alert.subject, v) && p.entity == v.entity
    ensures p.Command? ==>
      p.command in s.commands && exists v :: LastOf(s.vehicles, p.command.target, v) && p.entity == v.entity
    ensures p.ControlStream? ==>
      exists c, v :: c in s.commands && LastOf(s.vehicles, c.target, v)
                     && p.entity == v.entity && p.id == v.ControlStreamID()
  {
    hide Describes, VehicleView.DatastreamID, VehicleView.ControlStreamID, ByEntity, SenderOf, LastOf;
    FromOneView(s, p);
    forall entity ensures entity in ByEntity(s.vehicles) ==>
      LastOf(s.vehicles, entity, ByEntity(s.vehicles)[entity])
    {
      ByEntityExact(s.vehicles, entity);
    }
  }

  /** What is posted of operators, markers and message senders, with the names that stand
      in for missing ones. */
  lemma OperatorPosts(s: Snapshot, p: Post)
    requires Describes(s, p)
    ensures p.PositionStream? ==> exists o :: o in s.operators && p.entity == o.entity && p.id == o.PositionStreamID()
    ensures p.PositionObservation? ==>
      exists o :: o in s.operators && p.entity == o.entity && p.at == o.lastSeen && p.place == o.place && o.place.Some?
    ensures p.Marker? ==> p.view in s.markers && p.name == FirstNonEmpty([p.view.title, p.view.uid])
    ensures p.Message? ==>
      && p.view in s.messages
      && p.key == if p.view.senderEntity != "" then p.view.senderEntity
                  else "message-sender:" + FirstNonEmpty([p.view.senderUID, p.view.uid])
  {
    hide Describes, View.PositionStreamID, FirstNonEmpty, ByEntity, SenderOf, MessageSystem, OperatorSystem;
    FromOneView(s, p);
  }

  /** The system of an operator or of the sender of a message. */
  lemma SenderSystems(s: Snapshot, p: Post)
    requires Describes(s, p) && p.COPSystem?
    ensures
      || (exists o :: o in s.operators && p.key == o.entity && p.place == o.place
            && p.uid == (if o.uid == "" then o.entity else o.uid)
            && p.name == FirstNonEmpty([FirstNonEmpty([o.callsign, o.uid]), p.uid]))
      || (exists m :: m in s.messages && p.key == SenderKey(m) && var sender := SenderOf(s.operators, m);
            && p.place == (if sender.place.Some? then sender.place else m.place)
            && var uid := if m.senderUID != "" then m.senderUID else FirstNonEmpty([sender.uid, m.uid]);
            && p.uid == (if uid != "" then uid else p.key)
            && var name := if m.callsign != "" then m.callsign else FirstNonEmpty([sender.callsign, uid]);
            && p.name == FirstNonEmpty([name, p.uid]))
  {
    hide Describes, FirstNonEmpty, ByEntity, SenderOf, SenderKey;
    FromOneView(s, p);
  }

  // ---- What a log shows ----

  /** Every request names the outcome of an earlier successful one: streams, events and
      messages the id a system came back with, readings and commands a stream that was made. */
  lemma ParentsByFields(log: seq<Attempt>, j: nat)
    requires Parented(log) && j < |log|
    ensures var p := log[j].post;
      && (p.Datastream? || p.AlertEvent? || p.ControlStream? ==>
          exists i :: 0 <= i < j && log[i].post.System? && log[i].post.entity == p.entity
                      && log[i].result == Some(p.system) && p.system != "")
      && (p.Observation? ==>
          exists i :: 0 <= i < j && log[i].post.Datastream? && log[i].post.entity == p.entity
                      && log[i].post.metric == p.metric && log[i].post.id == p.stream && log[i].result.Some?)
      && (p.Command? ==>
          exists i :: 0 <= i < j && log[i].post.ControlStream? && log[i].post.entity == p.entity
                      && log[i].post.id == p.stream && log[i].result.Some?)
      && (p.PositionStream? ==>
          exists i :: 0 <= i < j && log[i].post.COPSystem? && log[i].post.key == p.entity
                      && log[i].result == Some(p.system) && p.system != "")
      && (p.PositionObservation? ==>
          exists i :: 0 <= i < j && log[i].post.PositionStream? && log[i].post.entity == p.entity
                      && log[i].post.id == p.stream && log[i].result.Some?)
      && (p.Message? ==>
          exists i :: 0 <= i < j && log[i].post.COPSystem? && log[i].post.key == p.key
                      && log[i].result == Some(p.system) && p.system != "")
  {
    if Needs(log[j].post).Some? {
      var i :| 0 <= i < j && log[i].Yields() == Needs(log[j].post);
    }
  }

  /** After one was accepted, no alert, command, marker or message of its entity is sent again. */
  lemma OnceByFields(log: seq<Attempt>, i: nat, j: nat)
    requires AtMostOnce(log) && i < j < |log| && log[i].result.Some?
    ensures var p, q := log[i].post, log[j].post;
      && (p.AlertEvent? && q.AlertEvent? ==> p.alert.entity != q.alert.entity)
      && (p.Command? && q.Command? ==> p.command.entity != q.command.entity)
      && (p.Marker? && q.Marker? ==> p.view.entity != q.view.entity)
      && (p.Message? && q.Message? ==> p.view.entity != q.view.entity)
  {
  }

  lemma SpacedByFields(log: seq<Attempt>, interval: int, i: nat, j: nat)
    requires Spaced(log, interval) && i < j < |log| && log[i].result.Some?
    ensures var p, q := log[i].post, log[j].post;
      && (p.Observation? && q.Observation? && p.stream == q.stream ==> q.at > p.at + interval)
      && (p.PositionObservation? && q.PositionObservation? && p.stream == q.stream ==> q.at > p.at + interval)
  {
  }

  // ---- When a snapshot is settled ----

  lemma VehicleSettledExact(c: Caches, v: VehicleView, interval: int)
    ensures VehicleSettled(c, v, interval) <==>
      || v.lastSeen == 0
      || (&& v.entity in c.systems && c.systems[v.entity] != "" && v.entity in c.datastreams
          && forall m: Metric ::
               && m in c.datastreams[v.entity] && c.datastreams[v.entity][m] != ""
               && c.datastreams[v.entity][m] in c.lastObservations
               && c.lastObservations[c.datastreams[v.entity][m]] != 0
               && v.lastSeen <= c.lastObservations[c.datastreams[v.entity][m]] + interval)
  {
    if v.lastSeen != 0 && VehicleSettled(c, v, interval) {
      assert c.StreamOf(v.entity, Battery) != "";
      forall m: Metric ensures
        && m in c.datastreams[v.entity] && c.datastreams[v.entity][m] != ""
        && c.datastreams[v.entity][m] in c.lastObservations
        && c.lastObservations[c.datastreams[v.entity][m]] != 0
        && v.lastSeen <= c.lastObservations[c.datastreams[v.entity][m]] + interval
      {
        assert c.StreamOf(v.entity, m) != "" && MetricQuiet(c, v, m, interval);
      }
    }
  }

  lemma OperatorSettledExact(c: Caches, o: View, interval: int)
    ensures OperatorSettled(c, o, interval) <==>
      || o.lastSeen == 0
      || (&& o.entity in c.copSystems && c.copSystems[o.entity] != ""
          && o.entity in c.copDatastreams && c.copDatastreams[o.entity] != ""
          && (o.place.Some? ==>
                && c.copDatastreams[o.entity] in c.lastObservations
                && c.lastObservations[c.copDatastreams[o.entity]] != 0
                && o.lastSeen <= c.lastObservations[c.copDatastreams[o.entity]] + interval))
  {
  }

  /** A snapshot is settled when every view in it is; alerts and commands of unknown
      vehicles are left alone. */
  lemma SettledExact(s: Snapshot, c: Caches, interval: int)
    ensures Settled(s, c, interval) <==>
      && (forall v :: v in s.vehicles ==> VehicleSettled(c, v, interval))
      && (forall a :: a in s.alerts ==>
            a.entity in c.alertsPosted || forall v :: v in s.vehicles ==> v.entity != a.subject)
      && (forall command :: command in s.commands ==>
            command.entity in c.commandsPosted || forall v :: v in s.vehicles ==> v.entity != command.target)
      && (forall o :: o in s.operators ==> OperatorSettled(c, o, interval))
      && (forall m :: m in s.markers ==> m.entity in c.markersPosted)
      && (forall m :: m in s.messages ==> m.entity in c.messagesPosted)
  {
    hide VehicleSettled, OperatorSettled, ByEntity;
    forall entity ensures entity in ByEntity(s.vehicles) <==> exists v :: v in s.vehicles && v.entity == entity {
      ByEntityExact(s.vehicles, entity);
    }
    if Settled(s, c, interval) {
      forall v | v in s.vehicles ensures VehicleSettled(c, v, interval) { assert Quiet(SeeVehicle(v), s, c, interval); }
      forall a | a in s.alerts ensures AlertSettled(c, ByEntity(s.vehicles), a) {
        assert Quiet(TellAlert(a), s, c, interval);
      }
      forall x | x in s.commands ensures CommandSettled(c, ByEntity(s.vehicles), x) {
        assert Quiet(TellCommand(x), s, c, interval);
      }
      forall o | o in s.operators ensures OperatorSettled(c, o, interval) {
        assert Quiet(SeeOperator(o), s, c, interval);
      }
      forall m | m in s.markers ensures m.entity in c.markersPosted { assert Quiet(TellMarker(m), s, c, interval); }
      forall m | m in s.messages ensures m.entity in c.messagesPosted { assert Quiet(TellMessage(m), s, c, interval); }
    }
  }

  // ---- When all goes well ----

  /** A stretch of requests went well exactly when every answer said created, or conflict
      with an id, and those for systems named one. */
  lemma WentWellExact(log0: seq<Attempt>, c0: Caches, log: seq<Attempt>, c: Caches, ok: bool, server: nat -> Response)
    requires Stepped(log0, c0, log, c, ok) && Answered(log, server)
    ensures ok <==> forall i :: |log0| <= i < |log| ==>
      && server(i).Response?
      && (server(i).status == 201 || (server(i).status == 409 && server(i).id != ""))
      && (log[i].post.System? || log[i].post.COPSystem? ==> server(i).id != "")
  {
    hide Grown;
  }
}
