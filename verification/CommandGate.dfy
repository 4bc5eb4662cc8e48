/** The simulator command gate: preflight, then bounded transmits with evidence. */
module CommandGate {
  import opened Bytes
  import opened Items
  import opened Frames
  import opened Messages
  import Text

  // ---- Normalised text ----

  function NormalChar(c: char): char {
    if 'A' <= c <= 'Z' then c + ('a' - 'A') else if c == '_' then '-' else c
  }

  /** Trimmed, lower case, with dashes for underscores. */
  function Normalize(s: string): string {
    var t := Text.Trim(s);
    seq(|t|, i requires 0 <= i < |t| => NormalChar(t[i]))
  }

  // ---- Preflight ----

  const SIMULATOR := "simulator"
  const HARDWARE := "hardware"
  const DEFAULT_VERB := "request-autopilot-version"
  const DEFAULT_PROFILE := "simulator-readback-v1"

  datatype PreflightRequest = PreflightRequest(
    runtimeMode: string, safetyProfile: string, targetEntity: string, verb: string, requestedBy: string,
    senderSystem: uint8, senderComponent: uint8, attempts: int,
    localOverride: bool, ackRequired: bool, pollingRequired: bool, simulatorConfirmed: bool, abortReady: bool)

  datatype PreflightCheck = PreflightCheck(name: string, passed: bool)

  datatype PreflightEvidence = PreflightEvidence(request: PreflightRequest, maxAttempts: int)

  datatype PreflightResult = PreflightResult(
    accepted: bool, checks: seq<PreflightCheck>, evidence: PreflightEvidence)

  datatype PreflightGate = PreflightGate(profiles: seq<string>, verbs: seq<string>, maxAttempts: int) {
    function WithDefaults(): PreflightGate {
      PreflightGate(if profiles == [] then [DEFAULT_PROFILE] else profiles,
                    if verbs == [] then [DEFAULT_VERB] else verbs,
                    if maxAttempts <= 0 then 3 else maxAttempts)
    }

    function Check(raw: PreflightRequest): PreflightResult {
      var g := WithDefaults();
      var req := raw.(runtimeMode := Normalize(raw.runtimeMode), verb := Normalize(raw.verb),
                      safetyProfile := Normalize(raw.safetyProfile),
                      targetEntity := Text.Trim(raw.targetEntity), requestedBy := Text.Trim(raw.requestedBy));
      var checks := [
        PreflightCheck("simulator-only", req.runtimeMode == SIMULATOR),
        PreflightCheck("safety-profile", Allowed(g.profiles, req.safetyProfile)),
        PreflightCheck("target-entity", req.targetEntity != ""),
        PreflightCheck("requested-by", req.requestedBy != ""),
        PreflightCheck("stable-sender", req.senderSystem != 0 && req.senderComponent != 0),
        PreflightCheck("narrow-allowlist", Allowed(g.verbs, req.verb)),
        PreflightCheck("bounded-attempts", 0 < req.attempts <= g.maxAttempts),
        PreflightCheck("local-override", req.localOverride),
        PreflightCheck("ack-required", req.ackRequired),
        PreflightCheck("post-state-polling", req.pollingRequired),
        PreflightCheck("simulator-confirmed", req.simulatorConfirmed),
        PreflightCheck("abort-ready", req.abortReady)];
      PreflightResult(AllPassed(checks), checks, PreflightEvidence(req, g.maxAttempts))
    }
  }

  /** A non-empty normalised value that some entry of the list normalises to. */
  predicate Allowed(list: seq<string>, value: string) {
    value != "" && exists i :: 0 <= i < |list| && Normalize(list[i]) == value
  }

  function AllPassed(checks: seq<PreflightCheck>): bool {
    if checks == [] then true else checks[0].passed && AllPassed(checks[1..])
  }

  lemma {:induction false} AllPassedMeansAll(checks: seq<PreflightCheck>)
    ensures AllPassed(checks) <==> forall i :: 0 <= i < |checks| ==> checks[i].passed
  {
    if checks != [] {
      AllPassedMeansAll(checks[1..]);
      assert checks == [checks[0]] + checks[1..];
    }
  }

  /** Acceptance needs every condition, whatever the gate's configuration; what the gate
      leaves open falls back to one profile, one verb and three attempts. */
  lemma PreflightExact(g: PreflightGate, req: PreflightRequest)
    ensures g.Check(req).accepted <==>
      && Normalize(req.runtimeMode) == "simulator"
      && Normalize(req.safetyProfile) != "" && Normalize(req.verb) != ""
      && (if g.profiles == [] then Normalize(req.safetyProfile) == Normalize("simulator-readback-v1")
          else exists i :: 0 <= i < |g.profiles| && Normalize(g.profiles[i]) == Normalize(req.safetyProfile))
      && (if g.verbs == [] then Normalize(req.verb) == Normalize("request-autopilot-version")
          else exists i :: 0 <= i < |g.verbs| && Normalize(g.verbs[i]) == Normalize(req.verb))
      && Text.Trim(req.targetEntity) != "" && Text.Trim(req.requestedBy) != ""
      && req.senderSystem != 0 && req.senderComponent != 0
      && 0 < req.attempts <= (if g.maxAttempts <= 0 then 3 else g.maxAttempts)
      && req.localOverride && req.ackRequired && req.pollingRequired
      && req.simulatorConfirmed && req.abortReady
  {
    hide Normalize, Text.Trim, Allowed, AllPassed;
    TwelveChecks(g.Check(req).checks);
    AllowedExact(g.WithDefaults().profiles, Normalize(req.safetyProfile));
    AllowedExact(g.WithDefaults().verbs, Normalize(req.verb));
  }

  lemma AllowedExact(list: seq<string>, value: string)
    ensures Allowed(list, value) <==>
      value != "" && exists i :: 0 <= i < |list| && Normalize(list[i]) == value
    ensures |list| == 1 ==> (Allowed(list, value) <==> value != "" && Normalize(list[0]) == value)
  {
    hide Normalize;
  }

  /** Normalising trims, lowers the letters A to Z and turns underscores into dashes. */
  lemma NormalizeExact(s: string, k: nat)
    requires k < |Text.Trim(s)|
    ensures |Normalize(s)| == |Text.Trim(s)|
    ensures var c, d := Text.Trim(s)[k], Normalize(s)[k];
      && (c == '_' ==> d == '-')
      && ('A' <= c <= 'Z' ==> d as int == c as int + 32)
      && (c != '_' && !('A' <= c <= 'Z') ==> d == c)
  {
  }

  /** The evidence names the request as it was checked, and the bound it was checked against. */
  lemma EvidenceExact(g: PreflightGate, req: PreflightRequest)
    ensures var ev := g.Check(req).evidence;
      && ev.maxAttempts == (if g.maxAttempts <= 0 then 3 else g.maxAttempts)
      && ev.request.attempts == req.attempts
      && ev.request.senderSystem == req.senderSystem && ev.request.senderComponent == req.senderComponent
      && ev.request.targetEntity == Text.Trim(req.targetEntity)
      && ev.request.requestedBy == Text.Trim(req.requestedBy)
      && ev.request.runtimeMode == Normalize(req.runtimeMode) && ev.request.verb == Normalize(req.verb)
      && ev.request.safetyProfile == Normalize(req.safetyProfile)
  {
    hide Normalize, Text.Trim, Allowed, AllPassed;
  }

  /** The twelve checks by name and in order, each with what it tests. */
  lemma ChecksByName(g: PreflightGate, req: PreflightRequest)
    ensures var checks := g.Check(req).checks;
      && |checks| == 12
      && checks[0] == PreflightCheck("simulator-only", Normalize(req.runtimeMode) == "simulator")
      && checks[1].name == "safety-profile"
      && checks[2] == PreflightCheck("target-entity", Text.Trim(req.targetEntity) != "")
      && checks[3] == PreflightCheck("requested-by", Text.Trim(req.requestedBy) != "")
      && checks[4] == PreflightCheck("stable-sender", req.senderSystem != 0 && req.senderComponent != 0)
      && checks[5].name == "narrow-allowlist"
      && checks[6].name == "bounded-attempts"
      && checks[7] == PreflightCheck("local-override", req.localOverride)
      && checks[8] == PreflightCheck("ack-required", req.ackRequired)
      && checks[9] == PreflightCheck("post-state-polling", req.pollingRequired)
      && checks[10] == PreflightCheck("simulator-confirmed", req.simulatorConfirmed)
      && checks[11] == PreflightCheck("abort-ready", req.abortReady)
  {
    hide Normalize, Text.Trim, Allowed, AllPassed;
  }

  lemma TwelveChecks(cs: seq<PreflightCheck>)
    requires |cs| == 12
    ensures AllPassed(cs) <==>
      && cs[0].passed && cs[1].passed && cs[2].passed && cs[3].passed && cs[4].passed && cs[5].passed
      && cs[6].passed && cs[7].passed && cs[8].passed && cs[9].passed && cs[10].passed && cs[11].passed
  {
    hide AllPassed;
    AllPassedMeansAll(cs);
  }

  // ---- The environment ----

  datatype Ack = Ack(command: uint16, result: uint8, sourceSystem: uint8, sourceComponent: uint8, observedAt: Time) {
    /** An accepted acknowledgement of the command the gate sends. */
    predicate Matches() {
      command == CMD_REQUEST_MESSAGE && result == RESULT_ACCEPTED
    }
  }

  datatype PostState = PostState(observed: bool, targetEntity: string, summary: string, observedAt: Time)

  /** What each attempt meets, by attempt index: whether the frame goes out, the
      acknowledgement and the post-state if they can be observed, and the clock.
      floatBits is the 32-bit pattern of a message id as a float. */
  datatype Environment = Environment(
    sent: nat -> bool, ack: nat -> Option<Ack>, poll: nat -> Option<PostState>, now: nat -> Time,
    floatBits: uint32 -> uint32)

  function StampedAck(a: Ack, now: Time): Ack {
    if a.observedAt == ZERO_TIME then a.(observedAt := now) else a
  }

  function CompletedState(p: PostState, target: string, now: Time): PostState {
    var q := if p.targetEntity == "" then p.(targetEntity := target) else p;
    if q.observedAt == ZERO_TIME then q.(observedAt := now) else q
  }

  // ---- Transmit ----

  datatype TransmitRequest = TransmitRequest(
    preflight: PreflightRequest, sequence: uint8, targetSystem: uint8, targetComponent: uint8,
    requestedMessage: uint32)

  datatype FrameEvidence = FrameEvidence(attempt: nat, sequence: uint8, confirmation: uint8, frameBytes: nat)

  datatype Status =
    | HardwareBlocked
    | PreflightRejected
    | TransmitUnavailable
    | InvalidTarget
    | EncodeFailed
    | TransmitFailed
    | AckFailed
    | PollFailed
    | NotObserved
    | AckNotAccepted
    | Accepted

  datatype TransmitResult = TransmitResult(
    accepted: bool, status: Status, frames: seq<FrameEvidence>, acks: seq<Ack>, postState: Option<PostState>)

  const AUTOPILOT_VERSION: uint32 := 148

  /** The message asked for, the autopilot version if none is named. */
  function Requested(req: TransmitRequest): uint32 {
    if req.requestedMessage == 0 then AUTOPILOT_VERSION else req.requestedMessage
  }

  /** The byte an attempt index is counted in. */
  function Wrapped(n: nat): uint8 {
    (n % 0x100) as uint8
  }

  function AttemptFrame(req: TransmitRequest, ev: PreflightEvidence, bits: uint32, attempt: nat): Frame {
    Frame(Wrapped(req.sequence as nat + attempt), ev.request.senderSystem, ev.request.senderComponent,
          COMMAND_LONG,
          CommandLongBytes(CommandLong([bits, 0, 0, 0, 0, 0, 0], CMD_REQUEST_MESSAGE,
                                       req.targetSystem, req.targetComponent, Wrapped(attempt))))
  }

  /** What a frame on the wire must decode to. */
  predicate CarriesCommand(wire: seq<uint8>, req: TransmitRequest, ev: PreflightEvidence, bits: uint32, attempt: nat) {
    match DecodeFrame(wire)
    case Err(_) => false
    case Ok(f) =>
      && f.sequence as nat == (req.sequence as nat + attempt) % 0x100
      && f.system == ev.request.senderSystem && f.component == ev.request.senderComponent
      && f.message == COMMAND_LONG
      && match DecodeCommandLong(f.payload)
         case NoMessage(_) => false
         case Got(c) =>
           && c.command == 512 && c.targetSystem == req.targetSystem && c.targetComponent == req.targetComponent
           && c.confirmation as nat == attempt % 0x100
           && c.params == [bits, 0, 0, 0, 0, 0, 0]
  }

  lemma AttemptCarriesCommand(req: TransmitRequest, ev: PreflightEvidence, bits: uint32, attempt: nat)
    ensures EncodedV2(AttemptFrame(req, ev, bits, attempt)).Ok?
    ensures CarriesCommand(EncodedV2(AttemptFrame(req, ev, bits, attempt)).value, req, ev, bits, attempt)
  {
    hide DecodeFrame, DecodeCommandLong, CommandLongBytes;
    var c := CommandLong([bits, 0, 0, 0, 0, 0, 0], CMD_REQUEST_MESSAGE, req.targetSystem,
                         req.targetComponent, Wrapped(attempt));
    CommandLongRoundTrip(c);
    DecodeEncodeV2(AttemptFrame(req, ev, bits, attempt));
  }

  /** Attempts 0 to n are sent and acknowledged, and the acknowledgement of n is the
      first that matches. */
  ghost predicate FirstMatch(env: Environment, n: nat) {
    && (forall i :: 0 <= i <= n ==> env.sent(i) && env.ack(i).Some?)
    && (forall i :: 0 <= i < n ==> !env.ack(i).value.Matches())
    && env.ack(n).value.Matches()
  }

  ghost predicate NoMatch(env: Environment, n: int) {
    forall i :: 0 <= i < n ==> env.sent(i) && env.ack(i).Some? && !env.ack(i).value.Matches()
  }

  /** A request the gate acts on. */
  predicate Cleared(g: PreflightGate, req: TransmitRequest, equipped: bool) {
    && Normalize(req.preflight.runtimeMode) != HARDWARE
    && g.Check(req.preflight).accepted && equipped
    && req.targetSystem != 0 && req.targetComponent != 0
  }

  /** Some attempt within the bound is the first match and its post-state is observed. */
  ghost predicate Succeeds(env: Environment, attempts: int) {
    exists n: nat :: n < attempts && FirstMatch(env, n) && env.poll(n).Some? && env.poll(n).value.observed
  }

  lemma MatchDecides(env: Environment, attempts: int, n: nat)
    requires n < attempts && FirstMatch(env, n)
    ensures Succeeds(env, attempts) <==> env.poll(n).Some? && env.poll(n).value.observed
    ensures !NoMatch(env, attempts)
  {
  }

  lemma BreakDecides(env: Environment, attempts: int, i: nat)
    requires i < attempts && NoMatch(env, i) && (!env.sent(i) || env.ack(i).None?)
    ensures !Succeeds(env, attempts) && !NoMatch(env, attempts)
  {
  }

  lemma ExhaustionDecides(env: Environment, attempts: int)
    requires NoMatch(env, attempts)
    ensures !Succeeds(env, attempts)
  {
  }

  /** How a cleared request ends that has come to attempt i. */
  function Outcome(env: Environment, i: nat, attempts: int): Status
    decreases attempts - i
  {
    if i >= attempts then AckNotAccepted
    else if !env.sent(i) then TransmitFailed
    else if env.ack(i).None? then AckFailed
    else if env.ack(i).value.command != 512 || env.ack(i).value.result != 0 then Outcome(env, i + 1, attempts)
    else if env.poll(i).None? then PollFailed
    else if !env.poll(i).value.observed then NotObserved
    else Accepted
  }

  lemma MatchesExact(a: Ack)
    ensures a.Matches() <==> a.command == 512 && a.result == 0
  {
  }

  lemma ClearedExact(g: PreflightGate, req: TransmitRequest, equipped: bool)
    ensures Cleared(g, req, equipped) <==>
      g.Check(req.preflight).accepted && equipped && req.targetSystem != 0 && req.targetComponent != 0
  {
    hide Normalize, PreflightGate.Check;
    PreflightExact(g, req.preflight);
  }

  lemma SucceedsExact(env: Environment, attempts: int)
    ensures Succeeds(env, attempts) <==>
      exists n: nat :: n < attempts
        && (forall i :: 0 <= i <= n ==> env.sent(i) && env.ack(i).Some?)
        && (forall i :: 0 <= i < n ==> env.ack(i).value.command != 512 || env.ack(i).value.result != 0)
        && env.ack(n).value.command == 512 && env.ack(n).value.result == 0
        && env.poll(n).Some? && env.poll(n).value.observed
  {
    if Succeeds(env, attempts) {
      var n: nat :| n < attempts && FirstMatch(env, n) && env.poll(n).Some? && env.poll(n).value.observed;
      assert env.ack(n).value.Matches();
    }
    forall n: nat
      | && n < attempts
        && (forall i :: 0 <= i <= n ==> env.sent(i) && env.ack(i).Some?)
        && (forall i :: 0 <= i < n ==> env.ack(i).value.command != 512 || env.ack(i).value.result != 0)
        && env.ack(n).value.command == 512 && env.ack(n).value.result == 0
        && env.poll(n).Some? && env.poll(n).value.observed
      ensures Succeeds(env, attempts)
    {
      assert FirstMatch(env, n);
    }
  }

  /** The frames that went out and their evidence. */
  ghost predicate FramesTold(req: TransmitRequest, ev: PreflightEvidence, env: Environment,
                             wire: seq<seq<uint8>>, frames: seq<FrameEvidence>)
  {
    && |frames| <= |wire|
    && (forall i :: 0 <= i < |wire| ==> CarriesCommand(wire[i], req, ev, env.floatBits(Requested(req)), i))
    && (forall i :: 0 <= i < |frames| ==>
          && env.sent(i)
          && frames[i] == FrameEvidence(i + 1, Wrapped(req.sequence as nat + i), Wrapped(i), |wire[i]|))
  }

  /** The acknowledgements observed, none but the last of which matches. */
  ghost predicate AcksTold(env: Environment, acks: seq<Ack>) {
    && (forall i :: 0 <= i < |acks| ==>
          env.ack(i).Some? && acks[i] == StampedAck(env.ack(i).value, env.now(i)))
    && (forall i :: 0 <= i < |acks| - 1 ==> !acks[i].Matches())
  }

  lemma TellFrame(req: TransmitRequest, ev: PreflightEvidence, env: Environment,
                  wire: seq<seq<uint8>>, frames: seq<FrameEvidence>, bytes: seq<uint8>)
    requires FramesTold(req, ev, env, wire, frames) && |frames| == |wire|
    requires CarriesCommand(bytes, req, ev, env.floatBits(Requested(req)), |wire|)
    ensures FramesTold(req, ev, env, wire + [bytes], frames)
    ensures env.sent(|wire|) ==>
      FramesTold(req, ev, env, wire + [bytes], frames
        + [FrameEvidence(|wire| + 1, Wrapped(req.sequence as nat + |wire|), Wrapped(|wire|), |bytes|)])
  {
    hide CarriesCommand;
  }

  lemma TellAck(env: Environment, acks: seq<Ack>)
    requires AcksTold(env, acks) && NoMatch(env, |acks|) && env.ack(|acks|).Some?
    ensures AcksTold(env, acks + [StampedAck(env.ack(|acks|).value, env.now(|acks|))])
  {
  }

  /** Attempts are counted from one, and the bytes on the wire modulo 256. */
  lemma FrameByFields(req: TransmitRequest, ev: PreflightEvidence, env: Environment,
                      wire: seq<seq<uint8>>, frames: seq<FrameEvidence>, i: nat)
    requires FramesTold(req, ev, env, wire, frames)
    ensures |frames| <= |wire|
    ensures i < |frames| ==>
      && frames[i].attempt == i + 1 && frames[i].frameBytes == |wire[i]|
      && frames[i].sequence as int == (req.sequence as int + i) % 256
      && frames[i].confirmation as int == i % 256
    ensures i < |wire| ==>
      CarriesCommand(wire[i], req, ev,
                     env.floatBits(if req.requestedMessage == 0 then 148 else req.requestedMessage), i)
  {
    hide CarriesCommand;
    if i < |frames| {
      var told := FrameEvidence(i + 1, Wrapped(req.sequence as nat + i), Wrapped(i), |wire[i]|);
      assert frames[i] == told;
    }
  }

  lemma AcksByFields(env: Environment, acks: seq<Ack>)
    requires AcksTold(env, acks)
    ensures forall i :: 0 <= i < |acks| ==>
      && env.ack(i).Some?
      && var seen := env.ack(i).value;
      && acks[i].command == seen.command && acks[i].result == seen.result
      && acks[i].sourceSystem == seen.sourceSystem && acks[i].sourceComponent == seen.sourceComponent
      && acks[i].observedAt == if seen.observedAt == 0 then env.now(i) else seen.observedAt
    ensures forall i :: 0 <= i < |acks| - 1 ==> acks[i].command != 512 || acks[i].result != 0
  {
  }

  lemma CompletedExact(p: PostState, target: string, now: Time)
    ensures var q := CompletedState(p, target, now);
      && q.observed == p.observed && q.summary == p.summary
      && q.targetEntity == (if p.targetEntity == "" then target else p.targetEntity)
      && q.observedAt == if p.observedAt == 0 then now else p.observedAt
  {
  }

  /** The attempts of a cleared request. */
  method TransmitCleared(g: PreflightGate, req: TransmitRequest, ev: PreflightEvidence, env: Environment)
      returns (result: TransmitResult, wire: seq<seq<uint8>>, polls: nat)
    requires ev == g.Check(req.preflight).evidence && req.preflight.attempts > 0
    ensures |wire| <= req.preflight.attempts
    ensures FramesTold(req, ev, env, wire, result.frames)
    ensures |result.frames| == |wire| - (if result.status.TransmitFailed? then 1 else 0)
    ensures AcksTold(env, result.acks)
    ensures |result.acks| == |result.frames| - (if result.status.AckFailed? then 1 else 0)
    ensures polls <= 1
    ensures result.accepted <==> result.status.Accepted?
    ensures result.accepted ==>
      && result.acks != [] && result.acks[|result.acks| - 1].Matches() && polls == 1
      && result.postState.Some? && result.postState.value.observed
    ensures result.postState.Some? ==>
      && result.acks != [] && env.poll(|result.acks| - 1).Some?
      && result.postState.value
         == CompletedState(env.poll(|result.acks| - 1).value, ev.request.targetEntity, env.now(|result.acks| - 1))
    ensures result.accepted <==> Succeeds(env, req.preflight.attempts)
    ensures result.status == Outcome(env, 0, req.preflight.attempts)
  {
    hide Normalize, PreflightGate.Check, CarriesCommand, AttemptFrame, EncodedV2, Ack.Matches,
         NoMatch, FirstMatch, Succeeds, FramesTold, AcksTold, StampedAck, CompletedState;
    wire, polls := [], 0;
    PreflightAttempts(g, req.preflight);
    assert FramesTold(req, ev, env, [], []) && AcksTold(env, []) && NoMatch(env, 0) by {
      NothingTold(req, ev, env);
    }
    var frames: seq<FrameEvidence>, acks: seq<Ack> := [], [];
    var bits := env.floatBits(Requested(req));
    var attempts := ev.request.attempts;
    for i := 0 to attempts
      invariant |wire| == |frames| == |acks| == i && polls == 0
      invariant FramesTold(req, ev, env, wire, frames)
      invariant AcksTold(env, acks)
      invariant NoMatch(env, i)
      invariant Outcome(env, 0, attempts) == Outcome(env, i, attempts)
    {
      AttemptCarriesCommand(req, ev, bits, i);
      var encoded := EncodeV2(AttemptFrame(req, ev, bits, i));
      if encoded.Err? { return TransmitResult(false, EncodeFailed, frames, acks, None), wire, polls; }
      TellFrame(req, ev, env, wire, frames, encoded.value);
      wire := wire + [encoded.value];
      if !env.sent(i) {
        BreakDecides(env, attempts, i);
        return TransmitResult(false, TransmitFailed, frames, acks, None), wire, polls;
      }
      frames := frames
        + [FrameEvidence(i + 1, Wrapped(req.sequence as nat + i), Wrapped(i), |encoded.value|)];
      if env.ack(i).None? {
        BreakDecides(env, attempts, i);
        return TransmitResult(false, AckFailed, frames, acks, None), wire, polls;
      }
      var ack := StampedAck(env.ack(i).value, env.now(i));
      StampKeepsMatch(env.ack(i).value, env.now(i));
      MatchesExact(env.ack(i).value);
      TellAck(env, acks);
      acks := acks + [ack];
      MatchMore(env, i);
      if !ack.Matches() { continue; }
      MatchDecides(env, attempts, i);
      polls := polls + 1;
      if env.poll(i).None? {
        return TransmitResult(false, PollFailed, frames, acks, None), wire, polls;
      }
      var postState := CompletedState(env.poll(i).value, ev.request.targetEntity, env.now(i));
      CompletedExact(env.poll(i).value, ev.request.targetEntity, env.now(i));
      if !postState.observed {
        return TransmitResult(false, NotObserved, frames, acks, Some(postState)), wire, polls;
      }
      return TransmitResult(true, Accepted, frames, acks, Some(postState)), wire, polls;
    }
    ExhaustionDecides(env, attempts);
    return TransmitResult(false, AckNotAccepted, frames, acks, None), wire, polls;
  }

  method Transmit(g: PreflightGate, req: TransmitRequest, equipped: bool, env: Environment)
      returns (result: TransmitResult, wire: seq<seq<uint8>>, polls: nat)
    // frames go out only for a cleared request, and no more than it and the gate allow
    ensures wire != [] ==> Cleared(g, req, equipped) && |wire| <= req.preflight.attempts
    ensures |wire| <= if g.maxAttempts <= 0 then 3 else g.maxAttempts
    // the evidence is what happened, frame by frame and acknowledgement by acknowledgement
    ensures FramesTold(req, g.Check(req.preflight).evidence, env, wire, result.frames)
    ensures |result.frames| == |wire| - (if result.status.TransmitFailed? then 1 else 0)
    ensures AcksTold(env, result.acks)
    ensures |result.acks| == |result.frames| - (if result.status.AckFailed? then 1 else 0)
    ensures polls <= 1
    // acceptance
    ensures result.accepted <==> result.status.Accepted?
    ensures result.accepted ==>
      && polls == 1 && result.postState.Some? && result.postState.value.observed
      && var last := |result.acks| - 1;
      && last >= 0
      && result.acks[last].command == 512 && result.acks[last].result == 0
      && forall i :: 0 <= i < last ==> result.acks[i].command != 512 || result.acks[i].result != 0
    ensures result.postState.Some? ==>
      && result.acks != [] && env.poll(|result.acks| - 1).Some?
      && result.postState.value
         == CompletedState(env.poll(|result.acks| - 1).value,
                           g.Check(req.preflight).evidence.request.targetEntity, env.now(|result.acks| - 1))
    ensures Cleared(g, req, equipped) ==>
      (result.accepted <==>
       exists n: nat ::
         && n < req.preflight.attempts
         && (forall i :: 0 <= i <= n ==> env.sent(i) && env.ack(i).Some?)
         && (forall i :: 0 <= i < n ==> env.ack(i).value.command != 512 || env.ack(i).value.result != 0)
         && env.ack(n).value.command == 512 && env.ack(n).value.result == 0
         && env.poll(n).Some? && env.poll(n).value.observed)
    // every status
    ensures Cleared(g, req, equipped) ==> result.status == Outcome(env, 0, req.preflight.attempts)
    ensures !Cleared(g, req, equipped) ==>
      && wire == [] && polls == 0
      && result.status == (if Normalize(req.preflight.runtimeMode) == "hardware" then HardwareBlocked
                           else if !g.Check(req.preflight).accepted then PreflightRejected
                           else if !equipped then TransmitUnavailable
                           else InvalidTarget)
  {
    hide Normalize, PreflightGate.Check, CarriesCommand, FramesTold, AcksTold, StampedAck, CompletedState,
         Succeeds, Outcome;
    wire, polls := [], 0;
    var none := TransmitResult(false, PreflightRejected, [], [], None);
    var preflight := g.Check(req.preflight);
    NothingTold(req, preflight.evidence, env);
    if Normalize(req.preflight.runtimeMode) == HARDWARE {
      return none.(status := HardwareBlocked), wire, polls;
    }
    PreflightAttempts(g, req.preflight);
    if !preflight.accepted { return none, wire, polls; }
    if !equipped { return none.(status := TransmitUnavailable), wire, polls; }
    if req.targetSystem == 0 || req.targetComponent == 0 {
      return none.(status := InvalidTarget), wire, polls;
    }
    result, wire, polls := TransmitCleared(g, req, preflight.evidence, env);
    SucceedsExact(env, req.preflight.attempts);
    AcksByFields(env, result.acks);
  }

  lemma NothingTold(req: TransmitRequest, ev: PreflightEvidence, env: Environment)
    ensures FramesTold(req, ev, env, [], []) && AcksTold(env, []) && NoMatch(env, 0)
  {
  }

  lemma MatchMore(env: Environment, i: nat)
    requires NoMatch(env, i) && env.sent(i) && env.ack(i).Some?
    ensures if env.ack(i).value.Matches() then FirstMatch(env, i) else NoMatch(env, i + 1)
  {
  }

  lemma StampKeepsMatch(a: Ack, now: Time)
    ensures StampedAck(a, now).Matches() == a.Matches()
  {
  }

  lemma PreflightAttempts(g: PreflightGate, req: PreflightRequest)
    ensures g.Check(req).evidence.request.attempts == req.attempts
    ensures g.Check(req).accepted ==> 0 < req.attempts <= g.WithDefaults().maxAttempts
  {
    hide Normalize, Text.Trim, Allowed;
    PreflightExact(g, req);
  }
}
