/** MAVLink 1 and unsigned MAVLink 2 frames: encoding and decoding. */
module Frames {
  import opened Bytes
  import opened Items
  import opened Crc

  const STX_V1: uint8 := 0xfe
  const HEADER_V1 := 6
  const STX_V2: uint8 := 0xfd
  const HEADER_V2 := 10
  const CHECKSUM_LEN := 2
  const SIGNATURE_LEN := 13

  const HEARTBEAT := 0
  const SYS_STATUS := 1
  const GLOBAL_POSITION_INT := 33
  const COMMAND_LONG := 76
  const COMMAND_ACK := 77

  function CrcExtra(message: nat): Option<uint8> {
    if message == HEARTBEAT then Some(50)
    else if message == SYS_STATUS then Some(124)
    else if message == GLOBAL_POSITION_INT then Some(104)
    else if message == COMMAND_LONG then Some(152)
    else if message == COMMAND_ACK then Some(143)
    else None
  }

  datatype Frame = Frame(
    sequence: uint8, system: uint8, component: uint8, message: nat, payload: seq<uint8>)

  datatype FrameError =
    | PayloadTooLarge
    | MessageNotInV1
    | UnsupportedMessage
    | TooShort
    | UnsupportedMagic
    | LengthMismatch
    | SignedFrame
    | ChecksumMismatch

  datatype Result<+T> = Ok(value: T) | Err(error: FrameError)

  function ChecksumBytes(crc: bv16): (bs: seq<uint8>)
    ensures |bs| == 2
  {
    [LowByte(crc), HighByte(crc)]
  }

  // ---- Encoding ----

  /** The checksummed part of a MAVLink 1 frame: all but the magic byte and the checksum. */
  function BodyV1(f: Frame): (bs: seq<uint8>)
    requires |f.payload| < 256 && f.message < 256
    ensures |bs| == 5 + |f.payload|
  {
    [|f.payload| as uint8, f.sequence, f.system, f.component, f.message as uint8] + f.payload
  }

  function MessageByte(message: nat, unit: nat): uint8
    requires unit > 0
  {
    (message / unit % 0x100) as uint8
  }

  function BodyV2(f: Frame): (bs: seq<uint8>)
    requires |f.payload| < 256
    ensures |bs| == 9 + |f.payload|
  {
    [|f.payload| as uint8, 0, 0, f.sequence, f.system, f.component,
     MessageByte(f.message, 1), MessageByte(f.message, 0x100),
     MessageByte(f.message, 0x1_0000)] + f.payload
  }

  function EncodedV1(f: Frame): Result<seq<uint8>> {
    if |f.payload| > 255 then Err(PayloadTooLarge)
    else if f.message > 255 then Err(MessageNotInV1)
    else if CrcExtra(f.message).None? then Err(UnsupportedMessage)
    else Ok([STX_V1] + BodyV1(f) + ChecksumBytes(Checksum(BodyV1(f), CrcExtra(f.message).value)))
  }

  function EncodedV2(f: Frame): Result<seq<uint8>> {
    if |f.payload| > 255 then Err(PayloadTooLarge)
    else if CrcExtra(f.message).None? then Err(UnsupportedMessage)
    else Ok([STX_V2] + BodyV2(f) + ChecksumBytes(Checksum(BodyV2(f), CrcExtra(f.message).value)))
  }

  /** Writes the checksum of the body at the end of the buffer, low byte first. */
  method WriteChecksum(frame: array<uint8>, end: nat, extra: uint8)
    requires 1 <= end && frame.Length == end + CHECKSUM_LEN
    modifies frame
    ensures frame[..] == old(frame[..end]) + ChecksumBytes(Checksum(old(frame[1..end]), extra))
  {
    hide Checksum, LowByte, HighByte;
    var crc := X25Checksum(frame[1..end], extra);
    frame[end] := LowByte(crc);
    frame[end + 1] := HighByte(crc);
  }

  /** Copies a payload behind a header. */
  method CopyPayload(frame: array<uint8>, start: nat, payload: seq<uint8>)
    requires start + |payload| <= frame.Length
    modifies frame
    ensures frame[..start + |payload|] == old(frame[..start]) + payload
  {
    forall i | 0 <= i < |payload| { frame[start + i] := payload[i]; }
  }

  /** Fills a byte buffer in place. */
  method EncodeV1(f: Frame) returns (r: Result<seq<uint8>>)
    ensures r == EncodedV1(f)
  {
    hide Checksum, LowByte, HighByte, CrcExtra;
    if |f.payload| > 255 { return Err(PayloadTooLarge); }
    if f.message > 255 { return Err(MessageNotInV1); }
    if CrcExtra(f.message).None? { return Err(UnsupportedMessage); }
    var end := HEADER_V1 + |f.payload|;
    var frame := new uint8[end + CHECKSUM_LEN](_ => 0);
    frame[0] := STX_V1;
    frame[1] := |f.payload| as uint8;
    frame[2] := f.sequence;
    frame[3] := f.system;
    frame[4] := f.component;
    frame[5] := f.message as uint8;
    CopyPayload(frame, HEADER_V1, f.payload);
    assert frame[..end] == [STX_V1] + BodyV1(f);
    assert frame[1..end] == frame[..end][1..] == BodyV1(f);
    WriteChecksum(frame, end, CrcExtra(f.message).value);
    return Ok(frame[..]);
  }

  /** The MAVLink 2 header; both flag bytes are zero. */
  function HeaderV2(f: Frame): (bs: seq<uint8>)
    requires |f.payload| < 256
    ensures |bs| == HEADER_V2 && bs + f.payload == [STX_V2] + BodyV2(f)
  {
    [STX_V2, |f.payload| as uint8, 0, 0, f.sequence, f.system, f.component,
     MessageByte(f.message, 1), MessageByte(f.message, 0x100), MessageByte(f.message, 0x1_0000)]
  }

  method WriteHeaderV2(frame: array<uint8>, f: Frame)
    requires |f.payload| < 256 && frame.Length >= HEADER_V2
    modifies frame
    ensures frame[..HEADER_V2] == HeaderV2(f)
  {
    hide MessageByte;
    frame[0] := STX_V2;
    frame[1] := |f.payload| as uint8;
    frame[2] := 0;
    frame[3] := 0;
    frame[4] := f.sequence;
    frame[5] := f.system;
    frame[6] := f.component;
    frame[7] := MessageByte(f.message, 1);
    frame[8] := MessageByte(f.message, 0x100);
    frame[9] := MessageByte(f.message, 0x1_0000);
  }

  method EncodeV2(f: Frame) returns (r: Result<seq<uint8>>)
    ensures r == EncodedV2(f)
  {
    hide Checksum, LowByte, HighByte, CrcExtra, BodyV2, HeaderV2;
    if |f.payload| > 255 { return Err(PayloadTooLarge); }
    if CrcExtra(f.message).None? { return Err(UnsupportedMessage); }
    var end := HEADER_V2 + |f.payload|;
    var frame := new uint8[end + CHECKSUM_LEN](_ => 0);
    WriteHeaderV2(frame, f);
    CopyPayload(frame, HEADER_V2, f.payload);
    assert frame[1..end] == frame[..end][1..] == BodyV2(f);
    WriteChecksum(frame, end, CrcExtra(f.message).value);
    return Ok(frame[..]);
  }

  // ---- Decoding ----

  function DecodeFrame(data: seq<uint8>): Result<Frame> {
    if |data| < HEADER_V1 + CHECKSUM_LEN then Err(TooShort)
    else if data[0] == STX_V1 then DecodeV1(data)
    else if data[0] == STX_V2 then DecodeV2(data)
    else Err(UnsupportedMagic)
  }

  function DecodeV1(data: seq<uint8>): Result<Frame>
    requires |data| >= HEADER_V1 + CHECKSUM_LEN
  {
    var end := HEADER_V1 + data[1] as int;
    if |data| != end + CHECKSUM_LEN then Err(LengthMismatch)
    else
      var message := data[5] as nat;
      if CrcExtra(message).None? then Err(UnsupportedMessage)
      else if Word(data[end], data[end + 1]) != Checksum(data[1..end], CrcExtra(message).value) then
        Err(ChecksumMismatch)
      else Ok(Frame(data[2], data[3], data[4], message, data[HEADER_V1..end]))
  }

  predicate Signed(data: seq<uint8>)
    requires |data| > 2
  {
    data[2] % 2 == 1
  }

  function MessageV2(data: seq<uint8>): nat
    requires |data| > 9
  {
    data[7] as nat + data[8] as nat * 0x100 + data[9] as nat * 0x1_0000
  }

  function DecodeV2(data: seq<uint8>): Result<Frame> {
    if |data| < HEADER_V2 + CHECKSUM_LEN then Err(TooShort)
    else
      var end := HEADER_V2 + data[1] as int;
      if |data| != end + CHECKSUM_LEN + (if Signed(data) then SIGNATURE_LEN else 0) then Err(LengthMismatch)
      else if Signed(data) then Err(SignedFrame)
      else
        var message := MessageV2(data);
        if CrcExtra(message).None? then Err(UnsupportedMessage)
        else if Word(data[end], data[end + 1]) != Checksum(data[1..end], CrcExtra(message).value) then
          Err(ChecksumMismatch)
        else Ok(Frame(data[4], data[5], data[6], message, data[HEADER_V2..end]))
  }

  // ---- Round trips ----

  lemma DecodeEncodeV1(f: Frame)
    requires EncodedV1(f).Ok?
    ensures DecodeFrame(EncodedV1(f).value) == Ok(f)
  {
    hide Checksum, LowByte, HighByte, Word;
    var data, body := EncodedV1(f).value, BodyV1(f);
    var end := HEADER_V1 + |f.payload|;
    WordOfBytes(Checksum(body, CrcExtra(f.message).value));
    assert data[1..end] == body;
    assert data[HEADER_V1..end] == f.payload;
  }

  lemma DecodeEncodeV2(f: Frame)
    requires EncodedV2(f).Ok?
    ensures DecodeFrame(EncodedV2(f).value) == Ok(f)
  {
    hide Checksum, LowByte, HighByte, Word;
    var data, body := EncodedV2(f).value, BodyV2(f);
    var end := HEADER_V2 + |f.payload|;
    WordOfBytes(Checksum(body, CrcExtra(f.message).value));
    assert data[1..end] == body;
    assert data[HEADER_V2..end] == f.payload;
  }

  /** Every accepted MAVLink 1 frame is what encoding its fields gives. */
  lemma EncodeDecodeV1(data: seq<uint8>)
    requires DecodeFrame(data).Ok? && data[0] == STX_V1
    ensures EncodedV1(DecodeFrame(data).value) == Ok(data)
  {
    hide Checksum, LowByte, HighByte, Word;
    var f := DecodeFrame(data).value;
    var end := HEADER_V1 + |f.payload|;
    BytesOfWord(data[end], data[end + 1]);
    assert data[1..end] == BodyV1(f);
    assert data == [data[0]] + data[1..end] + [data[end], data[end + 1]];
  }

  /** An accepted MAVLink 2 frame is what encoding its fields gives exactly when
      both its flag bytes are zero. */
  lemma EncodeDecodeV2(data: seq<uint8>)
    requires DecodeFrame(data).Ok? && data[0] == STX_V2
    ensures EncodedV2(DecodeFrame(data).value) == Ok(data) <==> data[2] == 0 && data[3] == 0
  {
    hide Checksum, LowByte, HighByte, Word;
    var f := DecodeFrame(data).value;
    var end := HEADER_V2 + |f.payload|;
    BytesOfWord(data[end], data[end + 1]);
    if data[2] == 0 && data[3] == 0 {
      assert data[1..end] == BodyV2(f);
      assert data == [data[0]] + data[1..end] + [data[end], data[end + 1]];
    }
    var again := [STX_V2] + BodyV2(f);
    assert again[2] == 0 && again[3] == 0;
  }

  // ---- Frames byte by byte ----

  /** The checksum is sent low byte first. */
  lemma WordIsBytes(low: uint8, high: uint8)
    ensures Word(low, high) == ((ToBits(high) as bv16) << 8) | (ToBits(low) as bv16)
  {
    hide ToBits;
    OrCommutes(ToBits(low) as bv16, (ToBits(high) as bv16) << 8);
  }

  lemma OrCommutes(x: bv16, y: bv16)
    ensures x | y == y | x
  {
  }

  /** A MAVLink 1 frame byte by byte, and the three refusals. */
  lemma EncodedV1Layout(f: Frame)
    ensures |f.payload| > 255 ==> EncodedV1(f) == Err(PayloadTooLarge)
    ensures |f.payload| <= 255 && f.message > 255 ==> EncodedV1(f) == Err(MessageNotInV1)
    ensures |f.payload| <= 255 && f.message <= 255 && f.message !in {0, 1, 33, 76, 77} ==>
      EncodedV1(f) == Err(UnsupportedMessage)
    ensures |f.payload| <= 255 && f.message in {0, 1, 33, 76, 77} ==>
      && EncodedV1(f).Ok?
      && var data, end := EncodedV1(f).value, 6 + |f.payload|;
      && |data| == end + 2
      && data[0] == 0xfe
      && data[1] as int == |f.payload|
      && data[2] == f.sequence && data[3] == f.system && data[4] == f.component
      && data[5] as int == f.message
      && data[6..end] == f.payload
      && Word(data[end], data[end + 1]) == Register(0xffff, data[1..end] + [CrcExtra(f.message).value])
  {
    hide LowByte, HighByte, Register, Word;
    if |f.payload| <= 255 && f.message in {0, 1, 33, 76, 77} {
      var data, end := EncodedV1(f).value, 6 + |f.payload|;
      assert data[1] == BodyV1(f)[0];
      assert data[1..end] == BodyV1(f);
      assert data[6..end] == f.payload;
      WordOfBytes(Checksum(BodyV1(f), CrcExtra(f.message).value));
    }
  }

  /** A MAVLink 2 frame byte by byte: both flag bytes zero, the message in three bytes. */
  lemma EncodedV2Layout(f: Frame)
    ensures |f.payload| > 255 ==> EncodedV2(f) == Err(PayloadTooLarge)
    ensures |f.payload| <= 255 && f.message !in {0, 1, 33, 76, 77} ==>
      EncodedV2(f) == Err(UnsupportedMessage)
    ensures |f.payload| <= 255 && f.message in {0, 1, 33, 76, 77} ==>
      && EncodedV2(f).Ok?
      && var data, end := EncodedV2(f).value, 10 + |f.payload|;
      && |data| == end + 2
      && data[0] == 0xfd
      && data[1] as int == |f.payload|
      && data[2] == 0 && data[3] == 0
      && data[4] == f.sequence && data[5] == f.system && data[6] == f.component
      && data[7] as int + 0x100 * data[8] as int + 0x1_0000 * data[9] as int == f.message
      && data[10..end] == f.payload
      && Word(data[end], data[end + 1]) == Register(0xffff, data[1..end] + [CrcExtra(f.message).value])
  {
    hide LowByte, HighByte, Register, Word;
    if |f.payload| <= 255 && f.message in {0, 1, 33, 76, 77} {
      var data, end := EncodedV2(f).value, 10 + |f.payload|;
      assert data[1] == BodyV2(f)[0];
      assert data[1..end] == BodyV2(f);
      assert data[10..end] == f.payload;
      WordOfBytes(Checksum(BodyV2(f), CrcExtra(f.message).value));
    }
  }

  /** Which byte strings are refused for their length, magic byte or signature. */
  lemma DecodeRefuses(data: seq<uint8>)
    ensures DecodeFrame(data) == Err(TooShort) <==> |data| < 8 || (data[0] == 0xfd && |data| < 12)
    ensures DecodeFrame(data) == Err(UnsupportedMagic) <==>
      |data| >= 8 && data[0] != 0xfe && data[0] != 0xfd
    ensures DecodeFrame(data) == Err(SignedFrame) <==>
      |data| >= 12 && data[0] == 0xfd && data[2] % 2 == 1 && |data| == 25 + data[1] as int
    ensures DecodeFrame(data) == Err(LengthMismatch) <==>
      || (|data| >= 8 && data[0] == 0xfe && |data| != 8 + data[1] as int)
      || (|data| >= 12 && data[0] == 0xfd && data[2] % 2 == 0 && |data| != 12 + data[1] as int)
      || (|data| >= 12 && data[0] == 0xfd && data[2] % 2 == 1 && |data| != 25 + data[1] as int)
  {
    hide Word, Checksum;
  }

  /** A MAVLink 1 byte string of the length it names is a frame exactly when its message
      is known and its last two bytes are the checksum of what lies between. */
  lemma DecodeV1Accepts(data: seq<uint8>)
    requires |data| >= 8 && data[0] == 0xfe && |data| == 8 + data[1] as int
    ensures var end, message := |data| - 2, data[5] as int;
            if message !in {0, 1, 33, 76, 77} then DecodeFrame(data) == Err(UnsupportedMessage)
            else if Word(data[end], data[end + 1])
                    != Register(0xffff, data[1..end] + [CrcExtra(message).value]) then
              DecodeFrame(data) == Err(ChecksumMismatch)
            else DecodeFrame(data) == Ok(Frame(data[2], data[3], data[4], message, data[6..end]))
  {
    hide Word, Register;
  }

  lemma DecodeV2Accepts(data: seq<uint8>)
    requires |data| >= 12 && data[0] == 0xfd && |data| == 12 + data[1] as int && data[2] % 2 == 0
    ensures var end := |data| - 2;
            var message := data[7] as int + 0x100 * data[8] as int + 0x1_0000 * data[9] as int;
            if message !in {0, 1, 33, 76, 77} then DecodeFrame(data) == Err(UnsupportedMessage)
            else if Word(data[end], data[end + 1])
                    != Register(0xffff, data[1..end] + [CrcExtra(message).value]) then
              DecodeFrame(data) == Err(ChecksumMismatch)
            else DecodeFrame(data) == Ok(Frame(data[4], data[5], data[6], message, data[10..end]))
  {
    hide Word, Register;
  }
}
