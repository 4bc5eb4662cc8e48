/** The requests of the CS API bridge, what their answers leave in its caches, and
    what a log of them shows. */
module Posts {
  import opened Items
  import Text

  // ---- What the bridge reads ----

  datatype Place = Place(longitude: real, latitude: real, altitude: real)

  datatype Metric = Battery | Altitude | GroundSpeed {
    function Token(): string {
      match this
      case Battery => "battery"
      case Altitude => "altitude"
      case GroundSpeed => "ground-speed"
    }
  }

  const METRICS := [Battery, Altitude, GroundSpeed]

  /** A vehicle; token is the name the bridge derives for it in ids it makes up. */
  datatype VehicleView = VehicleView(
    entity: string, token: string, lastSeen: Time, battery: int, altitude: real, groundSpeed: real)
  {
    function Value(m: Metric): real {
      match m
      case Battery => battery as real
      case Altitude => altitude
      case GroundSpeed => groundSpeed
    }

    function DatastreamID(m: Metric): (id: string)
      ensures id != ""
    {
      "c360.semlink.robotics.csapi.datastream." + m.Token() + "-" + token
    }

    function ControlStreamID(): (id: string)
      ensures id != ""
    {
      "c360.semlink.robotics.csapi.control." + token
    }
  }

  datatype AlertView = AlertView(entity: string, subject: string, kind: string, message: string)

  datatype CommandView = CommandView(entity: string, target: string, verb: string, status: string)

  /** An operator, a marker or a chat message. */
  datatype View = View(
    entity: string, token: string, uid: string, callsign: string, title: string, text: string,
    senderUID: string, senderEntity: string, place: Option<Place>, lastSeen: Time)
  {
    function PositionStreamID(): (id: string)
      ensures id != ""
    {
      "c360.semlink.cop.csapi.datastream.position-" + token
    }
  }

  const NO_VIEW := View("", "", "", "", "", "", "", "", None, ZERO_TIME)

  datatype Snapshot = Snapshot(
    vehicles: seq<VehicleView>, alerts: seq<AlertView>, commands: seq<CommandView>,
    operators: seq<View>, markers: seq<View>, messages: seq<View>)

  function FirstNonEmpty(values: seq<string>): string {
    if values == [] then ""
    else if Text.Blank(values[0]) then FirstNonEmpty(values[1..])
    else Text.Trim(values[0])
  }

  // ---- Requests and answers ----

  datatype Post =
    | System(entity: string, uid: string)
    | Datastream(entity: string, metric: Metric, id: string, system: string)
    | Observation(entity: string, metric: Metric, stream: string, at: Time, value: real)
    | AlertEvent(entity: string, system: string, alert: AlertView)
    | ControlStream(entity: string, id: string, system: string)
    | Command(entity: string, stream: string, command: CommandView)
    | COPSystem(key: string, uid: string, name: string, place: Option<Place>)
    | PositionStream(entity: string, id: string, system: string)
    | PositionObservation(entity: string, stream: string, at: Time, place: Option<Place>)
    | Marker(view: View, name: string)
    | Message(key: string, system: string, view: View)

  /** What comes back; id is what the answer or a conflicting request names, if anything. */
  datatype Response = NoResponse | Response(status: int, id: string) {
    function Result(): Option<string> {
      if NoResponse? || (status != 201 && status != 409) then None
      else if status == 409 && id == "" then None
      else Some(id)
    }
  }

  /** What a successful request creates for later ones to refer to. */
  datatype Resource =
    | VehicleSystem(entity: string, id: string)
    | VehicleStream(entity: string, metric: Metric, id: string)
    | VehicleControl(entity: string, id: string)
    | SenderSystem(key: string, id: string)
    | OperatorStream(entity: string, id: string)

  /** What is to be posted once. */
  datatype Thing =
    | AnAlert(entity: string)
    | ACommand(entity: string)
    | AMarker(entity: string)
    | AMessage(entity: string)

  datatype Attempt = Attempt(post: Post, result: Option<string>) {
    /** What Sync goes on after: a system must come back with an id. */
    predicate Fine() {
      result.Some? && (post.System? || post.COPSystem? ==> result.value != "")
    }

    function Yields(): Option<Resource> {
      if !Fine() then None
      else
        match post
        case System(e, _) => Some(VehicleSystem(e, result.value))
        case Datastream(e, m, id, _) => Some(VehicleStream(e, m, id))
        case ControlStream(e, id, _) => Some(VehicleControl(e, id))
        case COPSystem(key, _, _, _) => Some(SenderSystem(key, result.value))
        case PositionStream(e, id, _) => Some(OperatorStream(e, id))
        case _ => None
    }

    function Lands(): Option<Thing> {
      if Fine() then Tells(post) else None
    }

    /** The stream an accepted observation went to. */
    function Feeds(): Option<string> {
      if Fine() then Aims(post) else None
    }
  }

  /** What a request refers to. */
  function Needs(p: Post): Option<Resource> {
    match p
    case System(_, _) => None
    case Datastream(e, _, _, system) => Some(VehicleSystem(e, system))
    case Observation(e, m, stream, _, _) => Some(VehicleStream(e, m, stream))
    case AlertEvent(e, system, _) => Some(VehicleSystem(e, system))
    case ControlStream(e, _, system) => Some(VehicleSystem(e, system))
    case Command(e, stream, _) => Some(VehicleControl(e, stream))
    case COPSystem(_, _, _, _) => None
    case PositionStream(e, _, system) => Some(SenderSystem(e, system))
    case PositionObservation(e, stream, _, _) => Some(OperatorStream(e, stream))
    case Marker(_, _) => None
    case Message(key, system, _) => Some(SenderSystem(key, system))
  }

  /** What a request would post. */
  function Tells(p: Post): Option<Thing> {
    match p
    case AlertEvent(_, _, alert) => Some(AnAlert(alert.entity))
    case Command(_, _, command) => Some(ACommand(command.entity))
    case Marker(view, _) => Some(AMarker(view.entity))
    case Message(_, _, view) => Some(AMessage(view.entity))
    case _ => None
  }

  /** The stream an observation is for. */
  function Aims(p: Post): Option<string> {
    if p.Observation? || p.PositionObservation? then Some(p.stream) else None
  }

  // ---- What a log shows ----

  /** Every result is what the server's answer to that request comes to. */
  ghost predicate Answered(log: seq<Attempt>, server: nat -> Response) {
    forall i :: 0 <= i < |log| ==> log[i].result == server(i).Result()
  }

  /** Every request follows the success of the one that created what it refers to. */
  ghost predicate Parented(log: seq<Attempt>) {
    forall j :: 0 <= j < |log| && Needs(log[j].post).Some? ==>
      exists i :: 0 <= i < j && log[i].Yields() == Needs(log[j].post)
  }

  /** No alert, command, marker or message is sent again once it was accepted. */
  ghost predicate AtMostOnce(log: seq<Attempt>) {
    forall i, j :: 0 <= i < j < |log| && log[i].Lands().Some? ==> log[i].Lands() != Tells(log[j].post)
  }

  /** An observation is sent only more than the interval after the last accepted on its stream. */
  ghost predicate Spaced(log: seq<Attempt>, interval: int) {
    forall i, j :: 0 <= i < j < |log| && log[i].Feeds().Some? && log[i].Feeds() == Aims(log[j].post) ==>
      log[j].post.at > log[i].post.at + interval
  }

  ghost predicate Yielded(log: seq<Attempt>, r: Resource) {
    exists i :: 0 <= i < |log| && log[i].Yields() == Some(r)
  }

  ghost predicate Landed(log: seq<Attempt>, x: Thing) {
    exists i :: 0 <= i < |log| && log[i].Lands() == Some(x)
  }

  // ---- The caches ----

  function Entry<K>(m: map<K, string>, k: K): string {
    if k in m then m[k] else ""
  }

  datatype Caches = Caches(
    systems: map<string, string>,
    datastreams: map<string, map<Metric, string>>,
    lastObservations: map<string, Time>,
    alertsPosted: set<string>,
    controlStreams: map<string, string>,
    commandsPosted: set<string>,
    copSystems: map<string, string>,
    copDatastreams: map<string, string>,
    markersPosted: set<string>,
    messagesPosted: set<string>)
  {
    function StreamOf(entity: string, m: Metric): string {
      if entity in datastreams then Entry(datastreams[entity], m) else ""
    }

    function Last(stream: string): Time {
      if stream in lastObservations then lastObservations[stream] else ZERO_TIME
    }

    predicate Due(stream: string, at: Time, interval: int) {
      Last(stream) == ZERO_TIME || at > Last(stream) + interval
    }

    predicate Holds(r: Resource) {
      && r.id != ""
      && match r {
        case VehicleSystem(e, id) => Entry(systems, e) == id
        case VehicleStream(e, m, id) => StreamOf(e, m) == id
        case VehicleControl(e, id) => Entry(controlStreams, e) == id
        case SenderSystem(key, id) => Entry(copSystems, key) == id
        case OperatorStream(e, id) => Entry(copDatastreams, e) == id
      }
    }

    predicate Posted(x: Thing) {
      match x
      case AnAlert(e) => e in alertsPosted
      case ACommand(e) => e in commandsPosted
      case AMarker(e) => e in markersPosted
      case AMessage(e) => e in messagesPosted
    }

    function WithResource(r: Resource): Caches {
      match r
      case VehicleSystem(e, id) => this.(systems := systems[e := id])
      case VehicleStream(e, m, id) =>
        this.(datastreams := datastreams[e := (if e in datastreams then datastreams[e] else map[])[m := id]])
      case VehicleControl(e, id) => this.(controlStreams := controlStreams[e := id])
      case SenderSystem(key, id) => this.(copSystems := copSystems[key := id])
      case OperatorStream(e, id) => this.(copDatastreams := copDatastreams[e := id])
    }

    function WithThing(x: Thing): Caches {
      match x
      case AnAlert(e) => this.(alertsPosted := alertsPosted + {e})
      case ACommand(e) => this.(commandsPosted := commandsPosted + {e})
      case AMarker(e) => this.(markersPosted := markersPosted + {e})
      case AMessage(e) => this.(messagesPosted := messagesPosted + {e})
    }

    /** The caches after an attempt. */
    function After(a: Attempt): Caches {
      if a.Yields().Some? then WithResource(a.Yields().value)
      else if a.Lands().Some? then WithThing(a.Lands().value)
      else if a.Feeds().Some? then this.(lastObservations := lastObservations[a.post.stream := a.post.at])
      else this
    }

    /** Nothing is cached where this would go. */
    predicate Vacant(r: Resource) {
      match r
      case VehicleSystem(e, id) => Entry(systems, e) == ""
      case VehicleStream(e, m, id) => StreamOf(e, m) == ""
      case VehicleControl(e, id) => Entry(controlStreams, e) == ""
      case SenderSystem(key, id) => Entry(copSystems, key) == ""
      case OperatorStream(e, id) => Entry(copDatastreams, e) == ""
    }

    /** When the bridge sends a request at all. */
    predicate Calls(a: Attempt, interval: int) {
      && (Needs(a.post).Some? ==> Holds(Needs(a.post).value))
      && (a.Yields().Some? ==> Vacant(a.Yields().value) && a.Yields().value.id != "")
      && (Tells(a.post).Some? ==> !Posted(Tells(a.post).value))
      && (Aims(a.post).Some? ==> Due(a.post.stream, a.post.at, interval) && a.post.at != ZERO_TIME)
    }
  }

  const EMPTY := Caches(map[], map[], map[], {}, map[], {}, map[], map[], {}, {})

  /** Nothing cached is forgotten or changed, and observation times only grow. */
  ghost predicate Grown(c: Caches, d: Caches) {
    && (forall r :: c.Holds(r) ==> d.Holds(r))
    && (forall x :: c.Posted(x) ==> d.Posted(x))
    && (forall s :: c.Last(s) != ZERO_TIME ==> d.Last(s) != ZERO_TIME && c.Last(s) <= d.Last(s))
  }

  /** The caches say what the log says. */
  ghost predicate Backed(log: seq<Attempt>, c: Caches) {
    && (forall r :: c.Holds(r) ==> Yielded(log, r))
    && (forall x :: c.Posted(x) <==> Landed(log, x))
    && (forall i :: 0 <= i < |log| && log[i].Feeds().Some? ==>
          c.Last(log[i].Feeds().value) != ZERO_TIME && log[i].post.at <= c.Last(log[i].Feeds().value))
  }

  ghost predicate Sound(log: seq<Attempt>, c: Caches, interval: int) {
    interval > 0 && Parented(log) && AtMostOnce(log) && Spaced(log, interval) && Backed(log, c)
  }

  // ---- One attempt ----

  lemma ResourceCached(c: Caches, r: Resource, s: Resource)
    requires r.id != "" && c.Vacant(r)
    ensures c.WithResource(r).Holds(s) <==> c.Holds(s) || s == r
  {
  }

  lemma OnlyResource(c: Caches, r: Resource)
    ensures forall x :: c.WithResource(r).Posted(x) <==> c.Posted(x)
    ensures forall s :: c.WithResource(r).Last(s) == c.Last(s)
  {
  }

  lemma OnlyThing(c: Caches, x: Thing)
    ensures forall y :: c.WithThing(x).Posted(y) <==> c.Posted(y) || y == x
    ensures forall r :: c.WithThing(x).Holds(r) <==> c.Holds(r)
    ensures forall s :: c.WithThing(x).Last(s) == c.Last(s)
  {
  }

  lemma OnlyTime(c: Caches, stream: string, at: Time)
    ensures var d := c.(lastObservations := c.lastObservations[stream := at]);
            && (forall r :: d.Holds(r) <==> c.Holds(r))
            && (forall x :: d.Posted(x) <==> c.Posted(x))
            && (forall s :: d.Last(s) == if s == stream then at else c.Last(s))
  {
  }

  lemma OneEffect(a: Attempt)
    ensures a.Yields().Some? ==> a.Lands().None? && a.Feeds().None?
    ensures a.Lands().Some? ==> a.Feeds().None?
    ensures a.Feeds().Some? ==> (a.post.Observation? || a.post.PositionObservation?) && a.Feeds().value == a.post.stream
  {
  }

  /** What an attempt leaves in the caches. */
  lemma AfterExact(c: Caches, a: Attempt, interval: int)
    requires c.Calls(a, interval)
    ensures forall r :: c.After(a).Holds(r) <==> c.Holds(r) || a.Yields() == Some(r)
    ensures forall x :: c.After(a).Posted(x) <==> c.Posted(x) || a.Lands() == Some(x)
    ensures forall s :: c.After(a).Last(s) == if a.Feeds() == Some(s) then a.post.at else c.Last(s)
  {
    hide Attempt.Yields, Attempt.Lands, Attempt.Feeds, Caches.Holds, Caches.Posted, Caches.Last, Caches.Vacant, Needs,
      Caches.WithThing, Caches.WithResource;
    OneEffect(a);
    if a.Yields().Some? {
      var r := a.Yields().value;
      OnlyResource(c, r);
      forall s ensures c.WithResource(r).Holds(s) <==> c.Holds(s) || s == r { ResourceCached(c, r, s); }
    } else if a.Lands().Some? {
      OnlyThing(c, a.Lands().value);
    } else if a.Feeds().Some? {
      OnlyTime(c, a.post.stream, a.post.at);
    }
  }

  lemma GrownByAttempt(c: Caches, a: Attempt, interval: int)
    requires interval > 0 && c.Calls(a, interval)
    ensures Grown(c, c.After(a))
  {
    hide Attempt.Yields, Attempt.Lands, Attempt.Feeds, Caches.Holds, Caches.Posted, Caches.Last, Caches.After,
      Caches.Vacant, Needs;
    OneEffect(a);
    AfterExact(c, a, interval);
  }

  lemma ParentedMore(log: seq<Attempt>, c: Caches, a: Attempt, interval: int)
    requires Parented(log) && Backed(log, c) && c.Calls(a, interval)
    ensures Parented(log + [a])
  {
    hide Attempt.Yields, Attempt.Lands, Attempt.Feeds, Needs, Caches.Holds, Caches.Posted;
    var more := log + [a];
    forall j | 0 <= j < |more| && Needs(more[j].post).Some?
      ensures exists i :: 0 <= i < j && more[i].Yields() == Needs(more[j].post)
    {
      if j < |log| {
        var i :| 0 <= i < j && log[i].Yields() == Needs(log[j].post);
        assert more[i] == log[i];
      } else {
        var r := Needs(a.post).value;
        assert Yielded(log, r);
        var i :| 0 <= i < |log| && log[i].Yields() == Some(r);
        assert more[i] == log[i];
      }
    }
  }

  lemma OnceMore(log: seq<Attempt>, c: Caches, a: Attempt, interval: int)
    requires AtMostOnce(log) && Backed(log, c) && c.Calls(a, interval)
    ensures AtMostOnce(log + [a])
  {
  }

  lemma SpacedMore(log: seq<Attempt>, c: Caches, a: Attempt, interval: int)
    requires Spaced(log, interval) && Backed(log, c) && c.Calls(a, interval)
    ensures Spaced(log + [a], interval)
  {
  }

  lemma BackedMore(log: seq<Attempt>, c: Caches, a: Attempt, interval: int)
    requires interval > 0 && Backed(log, c) && c.Calls(a, interval)
    ensures Backed(log + [a], c.After(a))
  {
    hide Attempt.Yields, Attempt.Lands, Attempt.Feeds, Caches.Holds, Caches.Posted, Caches.Last, Caches.After,
      Caches.Vacant, Needs;
    var more, d := log + [a], c.After(a);
    OneEffect(a);
    AfterExact(c, a, interval);
    assert more[|log|] == a;
    forall r | d.Holds(r) ensures Yielded(more, r) {
      if c.Holds(r) {
        var i :| 0 <= i < |log| && log[i].Yields() == Some(r);
        assert more[i] == log[i];
      }
    }
    forall x ensures d.Posted(x) <==> Landed(more, x) {
      if c.Posted(x) {
        var i :| 0 <= i < |log| && log[i].Lands() == Some(x);
        assert more[i] == log[i];
      }
      if Landed(more, x) && a.Lands() != Some(x) {
        var i :| 0 <= i < |more| && more[i].Lands() == Some(x);
        assert log[i] == more[i];
      }
    }
  }

  /** A request sent when the bridge sends it, and its answer taken in, keep every law. */
  lemma SoundAfter(log: seq<Attempt>, c: Caches, a: Attempt, interval: int)
    requires Sound(log, c, interval) && c.Calls(a, interval)
    ensures Sound(log + [a], c.After(a), interval)
  {
    hide Parented, AtMostOnce, Spaced, Backed, Caches.Calls, Caches.After;
    ParentedMore(log, c, a, interval);
    OnceMore(log, c, a, interval);
    SpacedMore(log, c, a, interval);
    BackedMore(log, c, a, interval);
  }

  lemma NothingSent(interval: int)
    requires interval > 0
    ensures Sound([], EMPTY, interval)
  {
  }

  // ---- Stretches of a sync ----

  /** What a stretch of requests did: it went on exactly as long as all went well. */
  ghost predicate Stepped(log0: seq<Attempt>, c0: Caches, log: seq<Attempt>, c: Caches, ok: bool) {
    && log0 <= log
    && Grown(c0, c)
    && (ok <==> forall i :: |log0| <= i < |log| ==> log[i].Fine())
    && (!ok ==> forall i :: |log0| <= i < |log| - 1 ==> log[i].Fine())
    && (|log| == |log0| ==> c == c0)
  }

  lemma StepsChain(log0: seq<Attempt>, c0: Caches, log1: seq<Attempt>, c1: Caches,
                   log2: seq<Attempt>, c2: Caches, ok: bool)
    requires Stepped(log0, c0, log1, c1, true) && Stepped(log1, c1, log2, c2, ok)
    ensures Stepped(log0, c0, log2, c2, ok)
  {
  }

  lemma NoStep(log: seq<Attempt>, c: Caches)
    ensures Stepped(log, c, log, c, true)
  {
  }

  lemma OneStep(log: seq<Attempt>, c: Caches, a: Attempt, interval: int)
    requires interval > 0 && c.Calls(a, interval)
    ensures Stepped(log, c, log + [a], c.After(a), a.Fine())
  {
    hide Caches.Holds, Caches.Posted, Caches.Last, Caches.Calls, Caches.After, Attempt.Fine;
    GrownByAttempt(c, a, interval);
    assert (log + [a])[|log|] == a;
  }

  lemma Sent(log: seq<Attempt>, c: Caches, a: Attempt, interval: int)
    requires Sound(log, c, interval) && c.Calls(a, interval)
    ensures Sound(log + [a], c.After(a), interval)
    ensures Stepped(log, c, log + [a], c.After(a), a.Fine())
  {
    hide Parented, AtMostOnce, Spaced, Backed, Stepped, Caches.Calls, Caches.After;
    SoundAfter(log, c, a, interval);
    OneStep(log, c, a, interval);
  }

  // ---- Each kind of request ----

  function IdIn(result: Option<string>): string {
    if result.Some? then result.value else ""
  }

  /** The attempt keeps every law; if it went well, d is what the caches become. */
  ghost predicate Went(log: seq<Attempt>, c: Caches, a: Attempt, interval: int, ok: bool, d: Caches) {
    var after := if ok then d else c;
    Sound(log + [a], after, interval) && Stepped(log, c, log + [a], after, ok)
  }

  lemma SystemSent(log: seq<Attempt>, c: Caches, interval: int, e: string, uid: string,
                   result: Option<string>)
    requires Sound(log, c, interval)
    requires Entry(c.systems, e) == ""
    ensures Went(log, c, Attempt(System(e, uid), result), interval, IdIn(result) != "",
                 c.(systems := c.systems[e := IdIn(result)]))
  {
    hide Sound, Stepped, Grown;
    Sent(log, c, Attempt(System(e, uid), result), interval);
  }

  lemma DatastreamSent(log: seq<Attempt>, c: Caches, interval: int, e: string, m: Metric, id: string, system: string,
                       result: Option<string>)
    requires Sound(log, c, interval)
    requires Entry(c.systems, e) == system != "" && c.StreamOf(e, m) == "" && id != ""
    ensures var streams := if e in c.datastreams then c.datastreams[e] else map[];
            Went(log, c, Attempt(Datastream(e, m, id, system), result), interval, result.Some?,
                 c.(datastreams := c.datastreams[e := streams[m := id]]))
  {
    hide Sound, Stepped, Grown;
    Sent(log, c, Attempt(Datastream(e, m, id, system), result), interval);
  }

  lemma ObservationSent(log: seq<Attempt>, c: Caches, interval: int,
                        e: string, m: Metric, stream: string, at: Time, value: real, result: Option<string>)
    requires Sound(log, c, interval)
    requires c.StreamOf(e, m) == stream != "" && c.Due(stream, at, interval) && at != ZERO_TIME
    ensures Went(log, c, Attempt(Observation(e, m, stream, at, value), result), interval, result.Some?,
                 c.(lastObservations := c.lastObservations[stream := at]))
  {
    hide Sound, Stepped, Grown;
    Sent(log, c, Attempt(Observation(e, m, stream, at, value), result), interval);
  }

  lemma AlertSent(log: seq<Attempt>, c: Caches, interval: int, e: string, system: string, alert: AlertView,
                  result: Option<string>)
    requires Sound(log, c, interval)
    requires Entry(c.systems, e) == system != "" && alert.entity !in c.alertsPosted
    ensures Went(log, c, Attempt(AlertEvent(e, system, alert), result), interval, result.Some?,
                 c.(alertsPosted := c.alertsPosted + {alert.entity}))
  {
    hide Sound, Stepped, Grown;
    Sent(log, c, Attempt(AlertEvent(e, system, alert), result), interval);
  }

  lemma ControlStreamSent(log: seq<Attempt>, c: Caches, interval: int, e: string, id: string, system: string,
                          result: Option<string>)
    requires Sound(log, c, interval)
    requires Entry(c.systems, e) == system != "" && Entry(c.controlStreams, e) == "" && id != ""
    ensures Went(log, c, Attempt(ControlStream(e, id, system), result), interval, result.Some?,
                 c.(controlStreams := c.controlStreams[e := id]))
  {
    hide Sound, Stepped, Grown;
    Sent(log, c, Attempt(ControlStream(e, id, system), result), interval);
  }

  lemma CommandSent(log: seq<Attempt>, c: Caches, interval: int, e: string, stream: string, command: CommandView,
                    result: Option<string>)
    requires Sound(log, c, interval)
    requires Entry(c.controlStreams, e) == stream != "" && command.entity !in c.commandsPosted
    ensures Went(log, c, Attempt(Command(e, stream, command), result), interval, result.Some?,
                 c.(commandsPosted := c.commandsPosted + {command.entity}))
  {
    hide Sound, Stepped, Grown;
    Sent(log, c, Attempt(Command(e, stream, command), result), interval);
  }

  lemma COPSystemSent(log: seq<Attempt>, c: Caches, interval: int,
                      key: string, uid: string, name: string, place: Option<Place>, result: Option<string>)
    requires Sound(log, c, interval)
    requires Entry(c.copSystems, key) == ""
    ensures Went(log, c, Attempt(COPSystem(key, uid, name, place), result), interval, IdIn(result) != "",
                 c.(copSystems := c.copSystems[key := IdIn(result)]))
  {
    hide Sound, Stepped, Grown;
    Sent(log, c, Attempt(COPSystem(key, uid, name, place), result), interval);
  }

  lemma PositionStreamSent(log: seq<Attempt>, c: Caches, interval: int, e: string, id: string, system: string,
                           result: Option<string>)
    requires Sound(log, c, interval)
    requires Entry(c.copSystems, e) == system != "" && Entry(c.copDatastreams, e) == "" && id != ""
    ensures Went(log, c, Attempt(PositionStream(e, id, system), result), interval, result.Some?,
                 c.(copDatastreams := c.copDatastreams[e := id]))
  {
    hide Sound, Stepped, Grown;
    Sent(log, c, Attempt(PositionStream(e, id, system), result), interval);
  }

  lemma PositionSent(log: seq<Attempt>, c: Caches, interval: int,
                     e: string, stream: string, at: Time, place: Option<Place>, result: Option<string>)
    requires Sound(log, c, interval)
    requires Entry(c.copDatastreams, e) == stream != "" && c.Due(stream, at, interval) && at != ZERO_TIME
    ensures Went(log, c, Attempt(PositionObservation(e, stream, at, place), result), interval, result.Some?,
                 c.(lastObservations := c.lastObservations[stream := at]))
  {
    hide Sound, Stepped, Grown;
    Sent(log, c, Attempt(PositionObservation(e, stream, at, place), result), interval);
  }

  lemma MarkerSent(log: seq<Attempt>, c: Caches, interval: int, view: View, name: string,
                   result: Option<string>)
    requires Sound(log, c, interval)
    requires view.entity !in c.markersPosted
    ensures Went(log, c, Attempt(Marker(view, name), result), interval, result.Some?,
                 c.(markersPosted := c.markersPosted + {view.entity}))
  {
    hide Sound, Stepped, Grown;
    Sent(log, c, Attempt(Marker(view, name), result), interval);
  }

  lemma MessageSent(log: seq<Attempt>, c: Caches, interval: int, key: string, system: string, view: View,
                    result: Option<string>)
    requires Sound(log, c, interval)
    requires Entry(c.copSystems, key) == system != "" && view.entity !in c.messagesPosted
    ensures Went(log, c, Attempt(Message(key, system, view), result), interval, result.Some?,
                 c.(messagesPosted := c.messagesPosted + {view.entity}))
  {
    hide Sound, Stepped, Grown;
    Sent(log, c, Attempt(Message(key, system, view), result), interval);
  }

  // ---- When there is nothing left to post ----

  predicate MetricQuiet(c: Caches, v: VehicleView, m: Metric, interval: int) {
    c.StreamOf(v.entity, m) == "" || !c.Due(c.StreamOf(v.entity, m), v.lastSeen, interval)
  }

  predicate VehicleSettled(c: Caches, v: VehicleView, interval: int) {
    || v.lastSeen == ZERO_TIME
    || (Entry(c.systems, v.entity) != ""
        && forall m :: c.StreamOf(v.entity, m) != "" && MetricQuiet(c, v, m, interval))
  }

  predicate AlertSettled(c: Caches, known: map<string, VehicleView>, a: AlertView) {
    a.entity in c.alertsPosted || a.subject !in known
  }

  predicate CommandSettled(c: Caches, known: map<string, VehicleView>, command: CommandView) {
    command.entity in c.commandsPosted || command.target !in known
  }

  predicate OperatorSettled(c: Caches, o: View, interval: int) {
    || o.lastSeen == ZERO_TIME
    || (Entry(c.copSystems, o.entity) != "" && Entry(c.copDatastreams, o.entity) != ""
        && (o.place.None? || !c.Due(Entry(c.copDatastreams, o.entity), o.lastSeen, interval)))
  }

  /** The last view of each entity. */
  function ByEntity(vehicles: seq<VehicleView>): map<string, VehicleView> {
    if vehicles == [] then map[]
    else
      var last := vehicles[|vehicles| - 1];
      ByEntity(vehicles[..|vehicles| - 1])[last.entity := last]
  }

  lemma ByEntityMore(vehicles: seq<VehicleView>, k: nat)
    requires k < |vehicles|
    ensures ByEntity(vehicles[..k + 1]) == ByEntity(vehicles[..k])[vehicles[k].entity := vehicles[k]]
  {
    assert vehicles[..k + 1][..k] == vehicles[..k];
  }

  lemma VehicleStays(c: Caches, d: Caches, v: VehicleView, interval: int)
    requires Grown(c, d) && VehicleSettled(c, v, interval)
    ensures VehicleSettled(d, v, interval)
  {
    if v.lastSeen != ZERO_TIME {
      assert c.Holds(VehicleSystem(v.entity, Entry(c.systems, v.entity)));
      forall m ensures d.StreamOf(v.entity, m) == c.StreamOf(v.entity, m) {
        assert c.Holds(VehicleStream(v.entity, m, c.StreamOf(v.entity, m)));
      }
    }
  }

  lemma OperatorStays(c: Caches, d: Caches, o: View, interval: int)
    requires Grown(c, d) && OperatorSettled(c, o, interval)
    ensures OperatorSettled(d, o, interval)
  {
    if o.lastSeen != ZERO_TIME {
      assert c.Holds(SenderSystem(o.entity, Entry(c.copSystems, o.entity)));
      assert c.Holds(OperatorStream(o.entity, Entry(c.copDatastreams, o.entity)));
    }
  }

  lemma PostedStays(c: Caches, d: Caches)
    requires Grown(c, d)
    ensures c.alertsPosted <= d.alertsPosted && c.commandsPosted <= d.commandsPosted
    ensures c.markersPosted <= d.markersPosted && c.messagesPosted <= d.messagesPosted
  {
    hide Caches.Holds, Caches.Last;
    forall e | e in c.alertsPosted ensures e in d.alertsPosted { assert c.Posted(AnAlert(e)); }
    forall e | e in c.commandsPosted ensures e in d.commandsPosted { assert c.Posted(ACommand(e)); }
    forall e | e in c.markersPosted ensures e in d.markersPosted { assert c.Posted(AMarker(e)); }
    forall e | e in c.messagesPosted ensures e in d.messagesPosted { assert c.Posted(AMessage(e)); }
  }

  // ---- What a request is about ----

  predicate AboutVehicle(v: VehicleView, p: Post) {
    match p
    case System(e, uid) => e == v.entity && uid == v.token
    case Datastream(e, m, id, _) => e == v.entity && id == v.DatastreamID(m)
    case Observation(e, m, _, at, value) => e == v.entity && at == v.lastSeen && value == v.Value(m)
    case _ => false
  }

  predicate AboutAlert(known: map<string, VehicleView>, a: AlertView, p: Post) {
    && a.subject in known
    && (p.System? || p.AlertEvent?)
    && (p.System? ==> AboutVehicle(known[a.subject], p))
    && (p.AlertEvent? ==> p.entity == known[a.subject].entity && p.alert == a)
  }

  predicate AboutCommand(known: map<string, VehicleView>, command: CommandView, p: Post) {
    && command.target in known
    && (p.System? || p.ControlStream? || p.Command?)
    && (p.System? ==> AboutVehicle(known[command.target], p))
    && (p.ControlStream? ==>
          p.entity == known[command.target].entity && p.id == known[command.target].ControlStreamID())
    && (p.Command? ==> p.entity == known[command.target].entity && p.command == command)
  }

  /** The system that stands for an operator or the sender of a message. */
  function SystemFor(key: string, uid: string, name: string, place: Option<Place>): Post {
    var named := if uid == "" then key else uid;
    COPSystem(key, named, FirstNonEmpty([name, named]), place)
  }

  function OperatorSystem(o: View): Post {
    SystemFor(o.entity, o.uid, FirstNonEmpty([o.callsign, o.uid]), o.place)
  }

  predicate AboutOperator(o: View, p: Post) {
    match p
    case COPSystem(_, _, _, _) => p == OperatorSystem(o)
    case PositionStream(e, id, _) => e == o.entity && id == o.PositionStreamID()
    case PositionObservation(e, _, at, place) => e == o.entity && at == o.lastSeen && place == o.place && place.Some?
    case _ => false
  }

  predicate AboutMarker(m: View, p: Post) {
    p == Marker(m, FirstNonEmpty([m.title, m.uid]))
  }

  function SenderKey(m: View): string {
    if m.senderEntity == "" then "message-sender:" + FirstNonEmpty([m.senderUID, m.uid]) else m.senderEntity
  }

  /** The sender's system, described as far as the message and the known operator go. */
  function MessageSystem(operator: View, m: View): Post {
    var uid := if m.senderUID == "" then FirstNonEmpty([operator.uid, m.uid]) else m.senderUID;
    var name := if m.callsign == "" then FirstNonEmpty([operator.callsign, uid]) else m.callsign;
    SystemFor(SenderKey(m), uid, name, if operator.place.None? then m.place else operator.place)
  }

  predicate AboutMessage(operator: View, m: View, p: Post) {
    match p
    case COPSystem(_, _, _, _) => p == MessageSystem(operator, m)
    case Message(key, _, view) => key == SenderKey(m) && view == m
    case _ => false
  }

  /** The last operator of each entity, or of each uid. */
  function ByKey(operators: seq<View>, key: View -> string): map<string, View> {
    if operators == [] then map[]
    else
      var last := operators[|operators| - 1];
      ByKey(operators[..|operators| - 1], key)[key(last) := last]
  }

  lemma ByKeyMore(operators: seq<View>, k: nat, key: View -> string)
    requires k < |operators|
    ensures ByKey(operators[..k + 1], key) == ByKey(operators[..k], key)[key(operators[k]) := operators[k]]
  {
    assert operators[..k + 1][..k] == operators[..k];
  }

  function EntityOf(o: View): string { o.entity }

  function UIDOf(o: View): string { o.uid }

  /** Whom the bridge takes for the sender of a message. */
  function SenderOf(operators: seq<View>, m: View): View {
    var byEntity, byUID := ByKey(operators, EntityOf), ByKey(operators, UIDOf);
    if m.senderEntity in byEntity then byEntity[m.senderEntity]
    else if m.senderUID in byUID then byUID[m.senderUID]
    else NO_VIEW
  }
}
