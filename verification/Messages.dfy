/** Payload layouts: builders, typed decoding, and that one undoes the other. */
module Messages {
  import opened Bytes
  import opened Items
  import opened Frames
  import Crc

  type uint16 = n: nat | n < 0x1_0000
  type uint32 = n: nat | n < 0x1_0000_0000
  type int8 = n: int | -0x80 <= n < 0x80
  type int16 = n: int | -0x8000 <= n < 0x8000
  type int32 = n: int | -0x8000_0000 <= n < 0x8000_0000

  // ---- Little-endian fields and signed reinterpretation ----

  function Le16(v: uint16): (bs: seq<uint8>)
    ensures |bs| == 2
  {
    [(v % 0x100) as uint8, (v / 0x100) as uint8]
  }

  function Le32(v: uint32): (bs: seq<uint8>)
    ensures |bs| == 4
  {
    Le16(v % 0x1_0000) + Le16(v / 0x1_0000)
  }

  function GetUint16(bs: seq<uint8>, at: nat): uint16
    requires at + 2 <= |bs|
  {
    bs[at] as nat + 0x100 * bs[at + 1] as nat
  }

  function GetUint32(bs: seq<uint8>, at: nat): uint32
    requires at + 4 <= |bs|
  {
    GetUint16(bs, at) + 0x1_0000 * GetUint16(bs, at + 2)
  }

  function Signed8(b: uint8): int8 {
    if b < 0x80 then b as int else b as int - 0x100
  }

  function Signed16(v: uint16): int16 {
    if v < 0x8000 then v else v - 0x1_0000
  }

  function Signed32(v: uint32): int32 {
    if v < 0x8000_0000 then v else v - 0x1_0000_0000
  }

  function Unsigned8(v: int8): uint8 {
    (v % 0x100) as uint8
  }

  function Unsigned16(v: int16): uint16 {
    v % 0x1_0000
  }

  function Unsigned32(v: int32): uint32 {
    v % 0x1_0000_0000
  }

  lemma SignedRoundTrips(a: int8, b: int16, c: int32)
    ensures Signed8(Unsigned8(a)) == a && Signed16(Unsigned16(b)) == b && Signed32(Unsigned32(c)) == c
  {
  }

  /** binary.LittleEndian.PutUint16. */
  method PutUint16(buf: array<uint8>, at: nat, v: uint16)
    requires at + 2 <= buf.Length
    modifies buf
    ensures buf[..] == old(buf[..at]) + Le16(v) + old(buf[at + 2..])
  {
    buf[at] := (v % 0x100) as uint8;
    buf[at + 1] := (v / 0x100) as uint8;
  }

  /** binary.LittleEndian.PutUint32. */
  method PutUint32(buf: array<uint8>, at: nat, v: uint32)
    requires at + 4 <= buf.Length
    modifies buf
    ensures buf[..] == old(buf[..at]) + Le32(v) + old(buf[at + 4..])
  {
    PutUint16(buf, at, v % 0x1_0000);
    PutUint16(buf, at + 2, v / 0x1_0000);
  }

  lemma GetPut32(before: seq<uint8>, v: uint32, after: seq<uint8>)
    ensures GetUint32(before + Le32(v) + after, |before|) == v
  {
  }

  // ---- Payload layouts ----

  const MODE_FLAG_ARMED: uint8 := 0x80
  const STATE_ACTIVE: uint8 := 4
  const AUTOPILOT_GENERIC: uint8 := 0
  const CMD_REQUEST_MESSAGE: uint16 := 512
  const RESULT_ACCEPTED: uint8 := 0

  function Zeros(n: nat): (bs: seq<uint8>)
    ensures |bs| == n
    ensures forall i :: 0 <= i < n ==> bs[i] == 0
  {
    seq(n, _ => 0)
  }

  function HeartbeatBytes(armed: bool, customMode: uint32, vehicleType: uint8): (bs: seq<uint8>)
    ensures |bs| == 9
  {
    Le32(customMode)
    + [vehicleType, AUTOPILOT_GENERIC, if armed then MODE_FLAG_ARMED else 0, STATE_ACTIVE, 3]
  }

  function SysStatusBytes(voltage: uint16, current: int16, battery: int8, drop: uint16): (bs: seq<uint8>)
    ensures |bs| == 31
    ensures forall i :: 0 <= i < 12 || 20 <= i < 30 ==> bs[i] == 0
  {
    Zeros(12) + Le16(500) + Le16(voltage) + Le16(Unsigned16(current)) + Le16(drop)
    + Zeros(10) + [Unsigned8(battery)]
  }

  datatype Position = Position(
    timeBoot: uint32, latitude: int32, longitude: int32, altitude: int32, relativeAltitude: int32,
    vx: int16, vy: int16, vz: int16, heading: uint16)

  function PositionBytes(p: Position): (bs: seq<uint8>)
    ensures |bs| == 28
  {
    Le32(p.timeBoot) + Le32(Unsigned32(p.latitude)) + Le32(Unsigned32(p.longitude))
    + Le32(Unsigned32(p.altitude)) + Le32(Unsigned32(p.relativeAltitude))
    + Le16(Unsigned16(p.vx)) + Le16(Unsigned16(p.vy)) + Le16(Unsigned16(p.vz)) + Le16(p.heading)
  }

  function AckBytes(command: uint16, result: uint8, progress: uint8, param2: int32,
                    targetSystem: uint8, targetComponent: uint8): (bs: seq<uint8>)
    ensures |bs| == 10
  {
    Le16(command) + [result, progress] + Le32(Unsigned32(param2)) + [targetSystem, targetComponent]
  }

  /** A COMMAND_LONG; its seven float parameters are kept as bit patterns. */
  datatype CommandLong = CommandLong(
    params: seq<uint32>, command: uint16, targetSystem: uint8, targetComponent: uint8, confirmation: uint8)

  function ParamBytes(params: seq<uint32>): (bs: seq<uint8>)
    ensures |bs| == 4 * |params|
  {
    if params == [] then []
    else ParamBytes(params[..|params| - 1]) + Le32(params[|params| - 1])
  }

  function CommandLongBytes(c: CommandLong): (bs: seq<uint8>)
    ensures |bs| == 4 * |c.params| + 5
  {
    ParamBytes(c.params) + Le16(c.command) + [c.targetSystem, c.targetComponent, c.confirmation]
  }

  method HeartbeatPayload(armed: bool, customMode: uint32, vehicleType: uint8)
      returns (payload: seq<uint8>)
    ensures payload == HeartbeatBytes(armed, customMode, vehicleType)
  {
    hide Le32;
    var buf := new uint8[9](_ => 0);
    PutUint32(buf, 0, customMode);
    buf[4] := vehicleType;
    buf[5] := AUTOPILOT_GENERIC;
    if armed { buf[6] := MODE_FLAG_ARMED; }
    buf[7] := STATE_ACTIVE;
    buf[8] := 3;
    return buf[..];
  }

  method SysStatusPayload(voltage: uint16, current: int16, battery: int8, drop: uint16)
      returns (payload: seq<uint8>)
    ensures payload == SysStatusBytes(voltage, current, battery, drop)
  {
    hide Le16;
    var buf := new uint8[31](_ => 0);
    PutUint16(buf, 12, 500);
    assert buf[..14] == Zeros(12) + Le16(500) && buf[14..] == Zeros(17);
    PutUint16(buf, 14, voltage);
    assert buf[..16] == Zeros(12) + Le16(500) + Le16(voltage) && buf[16..] == Zeros(15);
    PutUint16(buf, 16, Unsigned16(current));
    PutUint16(buf, 18, drop);
    assert forall i :: 20 <= i < 31 ==> buf[i] == 0;
    buf[30] := Unsigned8(battery);
    assert buf[20..30] == Zeros(10);
    assert buf[..] == buf[..20] + buf[20..30] + [buf[30]];
    return buf[..];
  }

  method PositionPayload(p: Position) returns (payload: seq<uint8>)
    ensures payload == PositionBytes(p)
  {
    hide Le16, Le32;
    var buf := new uint8[28](_ => 0);
    PutUint32(buf, 0, p.timeBoot);
    PutUint32(buf, 4, Unsigned32(p.latitude));
    PutUint32(buf, 8, Unsigned32(p.longitude));
    PutUint32(buf, 12, Unsigned32(p.altitude));
    PutUint32(buf, 16, Unsigned32(p.relativeAltitude));
    PutUint16(buf, 20, Unsigned16(p.vx));
    PutUint16(buf, 22, Unsigned16(p.vy));
    PutUint16(buf, 24, Unsigned16(p.vz));
    PutUint16(buf, 26, p.heading);
    return buf[..];
  }

  method AckPayload(command: uint16, result: uint8, progress: uint8, param2: int32,
                    targetSystem: uint8, targetComponent: uint8) returns (payload: seq<uint8>)
    ensures payload == AckBytes(command, result, progress, param2, targetSystem, targetComponent)
  {
    hide Le16, Le32;
    var buf := new uint8[10](_ => 0);
    PutUint16(buf, 0, command);
    buf[2] := result;
    buf[3] := progress;
    PutUint32(buf, 4, Unsigned32(param2));
    buf[8] := targetSystem;
    buf[9] := targetComponent;
    return buf[..];
  }

  method CommandLongPayload(c: CommandLong) returns (payload: seq<uint8>)
    requires |c.params| == 7
    ensures payload == CommandLongBytes(c)
  {
    hide Le16, Le32;
    var buf := new uint8[33](_ => 0);
    for i := 0 to 7
      invariant buf[..4 * i] == ParamBytes(c.params[..i])
    {
      PutUint32(buf, 4 * i, c.params[i]);
      assert c.params[..i + 1][..i] == c.params[..i];
    }
    assert c.params[..7] == c.params;
    PutUint16(buf, 28, c.command);
    buf[30] := c.targetSystem;
    buf[31] := c.targetComponent;
    buf[32] := c.confirmation;
    return buf[..];
  }

  // ---- Typed decoding ----

  datatype Header = Header(system: uint8, component: uint8, sequence: uint8)

  datatype Message =
    | Heartbeat(header: Header, customMode: uint32, vehicleType: uint8, autopilot: uint8,
                baseMode: uint8, systemStatus: uint8, mavlink: uint8)
    | SysStatus(header: Header, load: uint16, voltage: uint16, current: int16, battery: int8,
                dropRate: uint16, errors: uint16)
    | GlobalPosition(header: Header, position: Position)
    | CommandAck(header: Header, command: uint16, result: uint8, progress: uint8, param2: int32,
                 targetSystem: uint8, targetComponent: uint8)
  {
    predicate Armed()
      requires Heartbeat?
    {
      baseMode >= MODE_FLAG_ARMED
    }
  }

  datatype MessageError = BadFrame(error: FrameError) | PayloadTooShort | NotDecoded

  datatype Decoded<+T> = Got(value: T) | NoMessage(error: MessageError)

  function DecodeMessage(data: seq<uint8>): Decoded<Message> {
    match DecodeFrame(data)
    case Err(e) => NoMessage(BadFrame(e))
    case Ok(f) => DecodePayload(f)
  }

  function DecodePayload(f: Frame): Decoded<Message> {
    var header, p := Header(f.system, f.component, f.sequence), f.payload;
    if f.message == HEARTBEAT then
      if |p| < 9 then NoMessage(PayloadTooShort)
      else Got(Heartbeat(header, GetUint32(p, 0), p[4], p[5], p[6], p[7], p[8]))
    else if f.message == SYS_STATUS then
      if |p| < 31 then NoMessage(PayloadTooShort)
      else Got(SysStatus(header, GetUint16(p, 12), GetUint16(p, 14), Signed16(GetUint16(p, 16)),
                                     Signed8(p[30]), GetUint16(p, 18), GetUint16(p, 20)))
    else if f.message == GLOBAL_POSITION_INT then
      if |p| < 28 then NoMessage(PayloadTooShort)
      else Got(GlobalPosition(header, DecodePosition(p)))
    else if f.message == COMMAND_ACK then
      if |p| < 3 then NoMessage(PayloadTooShort)
      else if |p| >= 10 then
        Got(CommandAck(header, GetUint16(p, 0), p[2], p[3], Signed32(GetUint32(p, 4)), p[8], p[9]))
      else Got(CommandAck(header, GetUint16(p, 0), p[2], 0, 0, 0, 0))
    else NoMessage(NotDecoded)
  }

  function DecodePosition(p: seq<uint8>): Position
    requires |p| >= 28
  {
    Position(GetUint32(p, 0), Signed32(GetUint32(p, 4)), Signed32(GetUint32(p, 8)),
             Signed32(GetUint32(p, 12)), Signed32(GetUint32(p, 16)), Signed16(GetUint16(p, 20)),
             Signed16(GetUint16(p, 22)), Signed16(GetUint16(p, 24)), GetUint16(p, 26))
  }

  function DecodeCommandLong(p: seq<uint8>): Decoded<CommandLong> {
    if |p| < 33 then NoMessage(PayloadTooShort)
    else Got(CommandLong(seq(7, i requires 0 <= i < 7 => GetUint32(p, 4 * i)),
                                     GetUint16(p, 28), p[30], p[31], p[32]))
  }

  // ---- Payloads survive encode, frame and decode ----

  /** A message framed in either format. */
  predicate Framed(data: seq<uint8>, header: Header, message: nat, payload: seq<uint8>) {
    var f := Frame(header.sequence, header.system, header.component, message, payload);
    EncodedV1(f) == Ok(data) || EncodedV2(f) == Ok(data)
  }

  lemma FramedDecodes(data: seq<uint8>, header: Header, message: nat, payload: seq<uint8>)
    requires Framed(data, header, message, payload)
    ensures DecodeMessage(data)
         == DecodePayload(Frame(header.sequence, header.system, header.component, message, payload))
  {
    hide EncodedV1, EncodedV2, DecodeFrame, DecodePayload;
    var f := Frame(header.sequence, header.system, header.component, message, payload);
    if EncodedV1(f) == Ok(data) { DecodeEncodeV1(f); }
    if EncodedV2(f) == Ok(data) { DecodeEncodeV2(f); }
  }

  lemma HeartbeatRoundTrip(data: seq<uint8>, header: Header, armed: bool, customMode: uint32, vehicleType: uint8)
    requires Framed(data, header, HEARTBEAT, HeartbeatBytes(armed, customMode, vehicleType))
    ensures var base := if armed then 0x80 else 0;
            var message := Heartbeat(header, customMode, vehicleType, 0, base, 4, 3);
            DecodeMessage(data) == Got(message) && message.Armed() == armed
  {
    hide Framed, DecodeMessage, Le32;
    var p := HeartbeatBytes(armed, customMode, vehicleType);
    FramedDecodes(data, header, HEARTBEAT, p);
    GetPut32([], customMode, p[4..]);
    assert p == [] + Le32(customMode) + p[4..];
  }

  lemma SysStatusRoundTrip(data: seq<uint8>, header: Header, voltage: uint16, current: int16,
                           battery: int8, drop: uint16)
    requires Framed(data, header, SYS_STATUS, SysStatusBytes(voltage, current, battery, drop))
    ensures DecodeMessage(data)
         == Got(SysStatus(header, 500, voltage, current, battery, drop, 0))
  {
    hide Framed, DecodeMessage, Le16, GetUint16, SysStatusBytes;
    var p := SysStatusBytes(voltage, current, battery, drop);
    FramedDecodes(data, header, SYS_STATUS, p);
    SysStatusFields(voltage, current, battery, drop);
    SignedRoundTrips(battery, current, 0);
  }

  lemma SysStatusFields(voltage: uint16, current: int16, battery: int8, drop: uint16)
    ensures var p := SysStatusBytes(voltage, current, battery, drop);
            && GetUint16(p, 12) == 500 && GetUint16(p, 14) == voltage
            && GetUint16(p, 16) == Unsigned16(current) && GetUint16(p, 18) == drop
            && GetUint16(p, 20) == 0 && p[30] == Unsigned8(battery)
  {
  }

  lemma PositionRoundTrip(data: seq<uint8>, header: Header, position: Position)
    requires Framed(data, header, GLOBAL_POSITION_INT, PositionBytes(position))
    ensures DecodeMessage(data) == Got(GlobalPosition(header, position))
  {
    hide Framed, DecodeMessage, PositionBytes, DecodePosition;
    FramedDecodes(data, header, GLOBAL_POSITION_INT, PositionBytes(position));
    PositionFields(position);
  }

  lemma PositionFields(position: Position)
    ensures DecodePosition(PositionBytes(position)) == position
  {
    var p := PositionBytes(position);
    assert GetUint32(p, 0) == position.timeBoot;
    SignedRoundTrips(0, position.vx, position.latitude);
    SignedRoundTrips(0, position.vy, position.longitude);
    SignedRoundTrips(0, position.vz, position.altitude);
    SignedRoundTrips(0, 0, position.relativeAltitude);
  }

  lemma AckRoundTrip(data: seq<uint8>, header: Header, command: uint16, result: uint8, progress: uint8,
                     param2: int32, targetSystem: uint8, targetComponent: uint8)
    requires Framed(data, header, COMMAND_ACK,
                    AckBytes(command, result, progress, param2, targetSystem, targetComponent))
    ensures DecodeMessage(data)
         == Got(CommandAck(header, command, result, progress, param2, targetSystem, targetComponent))
  {
    hide Framed, DecodeMessage;
    var p := AckBytes(command, result, progress, param2, targetSystem, targetComponent);
    FramedDecodes(data, header, COMMAND_ACK, p);
    SignedRoundTrips(0, 0, param2);
  }

  lemma {:induction false} ParamAt(params: seq<uint32>, rest: seq<uint8>, i: nat)
    requires i < |params|
    ensures GetUint32(ParamBytes(params) + rest, 4 * i) == params[i]
  {
    hide Le32, GetUint32;
    var n := |params| - 1;
    var init, last := params[..n], params[n];
    assert ParamBytes(params) + rest == ParamBytes(init) + Le32(last) + rest
                                     == ParamBytes(init) + (Le32(last) + rest);
    if i == n {
      GetPut32(ParamBytes(init), last, rest);
    } else {
      ParamAt(init, Le32(last) + rest, i);
    }
  }

  /** A command payload decodes to the command it was built from. */
  lemma CommandLongRoundTrip(c: CommandLong)
    requires |c.params| == 7
    ensures DecodeCommandLong(CommandLongBytes(c)) == Got(c)
  {
    hide Le32, GetUint32, ParamBytes;
    var p := CommandLongBytes(c);
    var rest := Le16(c.command) + [c.targetSystem, c.targetComponent, c.confirmation];
    assert p == ParamBytes(c.params) + rest;
    forall i | 0 <= i < 7 ensures GetUint32(p, 4 * i) == c.params[i] { ParamAt(c.params, rest, i); }
    assert DecodeCommandLong(p).value.params == c.params;
  }

  // ---- Payloads byte by byte ----

  /** Fields are little-endian. */
  lemma NumbersByByte(p: seq<uint8>, at: nat)
    ensures at + 2 <= |p| ==> GetUint16(p, at) == p[at] as int + 256 * p[at + 1] as int
    ensures at + 4 <= |p| ==>
      GetUint32(p, at)
      == p[at] as int + 256 * p[at + 1] as int + 65536 * p[at + 2] as int + 16777216 * p[at + 3] as int
  {
  }

  /** Which frames decode to a message, and which byte of the payload goes where. An
      acknowledgement of three to nine bytes has its command and result only. */
  lemma PayloadByOffset(f: Frame)
    ensures DecodePayload(f) == NoMessage(NotDecoded) <==> f.message !in {0, 1, 33, 77}
    ensures DecodePayload(f) == NoMessage(PayloadTooShort) <==>
      || (f.message == 0 && |f.payload| < 9) || (f.message == 1 && |f.payload| < 31)
      || (f.message == 33 && |f.payload| < 28) || (f.message == 77 && |f.payload| < 3)
    ensures var header, p := Header(f.system, f.component, f.sequence), f.payload;
      && (f.message == 0 && |p| >= 9 ==>
          DecodePayload(f) == Got(Heartbeat(header, GetUint32(p, 0), p[4], p[5], p[6], p[7], p[8])))
      && (f.message == 1 && |p| >= 31 ==>
          DecodePayload(f) == Got(SysStatus(header, GetUint16(p, 12), GetUint16(p, 14),
            Signed16(GetUint16(p, 16)), Signed8(p[30]), GetUint16(p, 18), GetUint16(p, 20))))
      && (f.message == 77 && |p| >= 10 ==>
          DecodePayload(f) == Got(CommandAck(header, GetUint16(p, 0), p[2], p[3],
            Signed32(GetUint32(p, 4)), p[8], p[9])))
      && (f.message == 77 && 3 <= |p| < 10 ==>
          DecodePayload(f) == Got(CommandAck(header, GetUint16(p, 0), p[2], 0, 0, 0, 0)))
  {
    hide GetUint16, GetUint32, DecodePosition, Signed8, Signed16, Signed32;
  }

  lemma PositionByOffset(f: Frame)
    requires f.message == 33 && |f.payload| >= 28
    ensures var p := f.payload;
      DecodePayload(f) == Got(GlobalPosition(Header(f.system, f.component, f.sequence), Position(
        GetUint32(p, 0), Signed32(GetUint32(p, 4)), Signed32(GetUint32(p, 8)),
        Signed32(GetUint32(p, 12)), Signed32(GetUint32(p, 16)), Signed16(GetUint16(p, 20)),
        Signed16(GetUint16(p, 22)), Signed16(GetUint16(p, 24)), GetUint16(p, 26))))
  {
    hide GetUint16, GetUint32, Signed16, Signed32;
  }

  lemma CommandByOffset(p: seq<uint8>)
    ensures |p| < 33 <==> DecodeCommandLong(p) == NoMessage(PayloadTooShort)
    ensures |p| >= 33 ==>
      && var c := DecodeCommandLong(p).value;
      && |c.params| == 7
      && (forall i :: 0 <= i < 7 ==> c.params[i] == GetUint32(p, 4 * i))
      && c.command == GetUint16(p, 28)
      && c.targetSystem == p[30] && c.targetComponent == p[31] && c.confirmation == p[32]
  {
    hide GetUint16, GetUint32;
  }

  /** The signed readings of a field are its two's complement, and a heartbeat is armed
      exactly when the highest bit of its base mode is set. */
  lemma ReadingsByValue(b: uint8, half: uint16, word: uint32, heartbeat: Message)
    requires heartbeat.Heartbeat?
    ensures Signed8(b) == (b as int + 128) % 256 - 128
    ensures Signed16(half) == (half + 32768) % 65536 - 32768
    ensures Signed32(word) == (word + 2147483648) % 4294967296 - 2147483648
    ensures heartbeat.Armed() <==> heartbeat.baseMode as int / 128 == 1
  {
  }
}
