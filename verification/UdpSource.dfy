/** Splitting datagrams into frames, and the queue that hands them out one by one. */
module UdpSource {
  import opened Bytes
  import opened Items
  import opened Frames
  import Crc

  /** A frame as received, with the system id its subject and vehicle id are made of. */
  datatype RawFrame = RawFrame(system: uint8, bytes: seq<uint8>)

  /** The length of the frame that starts here, if one may start here. */
  function FrameLen(data: seq<uint8>): Option<nat> {
    if |data| < HEADER_V1 + CHECKSUM_LEN then None
    else if data[0] == STX_V1 then Some(HEADER_V1 + data[1] as nat + CHECKSUM_LEN)
    else if data[0] == STX_V2 then
      if |data| < HEADER_V2 + CHECKSUM_LEN then None
      else Some(HEADER_V2 + data[1] as nat + CHECKSUM_LEN + (if Signed(data) then SIGNATURE_LEN else 0))
    else None
  }

  /** The frame that these bytes are, if they decode. */
  function Accepted(bytes: seq<uint8>): seq<RawFrame> {
    match DecodeFrame(bytes)
    case Ok(f) => [RawFrame(f.system, bytes)]
    case Err(_) => []
  }

  /** The frames of a datagram: step over one byte where no frame starts, over a
      whole frame where one does, and stop at a frame that is cut off. */
  function Split(data: seq<uint8>): seq<RawFrame> {
    if data == [] then []
    else
      match FrameLen(data)
      case None => Split(data[1..])
      case Some(n) =>
        if |data| < n then []
        else Accepted(data[..n]) + Split(data[n..])
  }

  method FramesFromDatagram(data: seq<uint8>) returns (frames: seq<RawFrame>)
    ensures frames == Split(data)
  {
    hide FrameLen, DecodeFrame;
    frames := [];
    var offset := 0;
    while offset < |data|
      invariant offset <= |data|
      invariant frames + Split(data[offset..]) == Split(data)
      decreases |data| - offset
    {
      var rest := data[offset..];
      var len := FrameLen(rest);
      FrameLenPositive(rest);
      if len.None? {
        assert rest[1..] == data[offset + 1..];
        offset := offset + 1;
        continue;
      }
      if |rest| < len.value { break; }
      var bytes := data[offset..offset + len.value];
      assert rest[..len.value] == bytes && rest[len.value..] == data[offset + len.value..];
      var decoded := DecodeFrame(bytes);
      if decoded.Ok? {
        frames := frames + [RawFrame(decoded.value.system, bytes)];
      }
      offset := offset + len.value;
    }
  }

  lemma FrameLenPositive(data: seq<uint8>)
    ensures FrameLen(data).Some? ==> FrameLen(data).value >= HEADER_V1 + CHECKSUM_LEN
  {
  }

  /** Where a frame may start, and how long its length byte says it is; the signature of a
      signed frame counts. */
  lemma FrameLenExact(data: seq<uint8>)
    ensures FrameLen(data).None? <==>
      |data| < 8 || (data[0] != 0xfe && data[0] != 0xfd) || (data[0] == 0xfd && |data| < 12)
    ensures |data| >= 8 && data[0] == 0xfe ==> FrameLen(data) == Some(8 + data[1] as int)
    ensures |data| >= 12 && data[0] == 0xfd && data[2] % 2 == 0 ==> FrameLen(data) == Some(12 + data[1] as int)
    ensures |data| >= 12 && data[0] == 0xfd && data[2] % 2 == 1 ==> FrameLen(data) == Some(25 + data[1] as int)
  {
  }

  /** A signed frame is stepped over as a whole, whatever its bytes. */
  lemma SignedIsSkipped(p: seq<uint8>, rest: seq<uint8>)
    requires |p| >= 12 && p[0] == 0xfd && p[2] % 2 == 1 && |p| == 25 + p[1] as int
    ensures Split(p + rest) == Split(rest)
  {
    hide FrameLen, DecodeFrame;
    FrameLenExact(p + rest);
    assert (p + rest)[..|p|] == p && (p + rest)[|p|..] == rest;
    DecodeRefuses(p);
  }

  // ---- Arbitrary bytes ----

  /** The parts of the datagram that were returned, as start and end offsets. */
  datatype Slice = Slice(start: nat, end: nat)

  ghost predicate SlicesOf(slices: seq<Slice>, frames: seq<RawFrame>, data: seq<uint8>) {
    && |slices| == |frames|
    && (forall i :: 0 <= i < |slices| ==>
          && slices[i].start < slices[i].end <= |data|
          && frames[i].bytes == data[slices[i].start..slices[i].end]
          && DecodeFrame(frames[i].bytes).Ok?
          && frames[i].system == DecodeFrame(frames[i].bytes).value.system)
    && (forall i, j :: 0 <= i < j < |slices| ==> slices[i].end <= slices[j].start)
  }

  function Shifted(slices: seq<Slice>, n: nat): (r: seq<Slice>)
    ensures |r| == |slices|
    ensures forall i :: 0 <= i < |r| ==> r[i] == Slice(slices[i].start + n, slices[i].end + n)
  {
    seq(|slices|, i requires 0 <= i < |slices| => Slice(slices[i].start + n, slices[i].end + n))
  }

  lemma ShiftSlices(slices: seq<Slice>, frames: seq<RawFrame>, data: seq<uint8>, n: nat)
    requires n <= |data| && SlicesOf(slices, frames, data[n..])
    ensures SlicesOf(Shifted(slices, n), frames, data)
  {
    hide DecodeFrame;
    forall i | 0 <= i < |slices|
      ensures data[n..][slices[i].start..slices[i].end] == data[slices[i].start + n..slices[i].end + n]
    {
    }
  }

  lemma NoSlices(data: seq<uint8>)
    ensures SlicesOf([], [], data)
  {
  }

  /** Whatever the bytes, the frames returned are disjoint, increasing slices of the
      datagram, each of which decodes. */
  lemma {:induction false} SplitIsSlices(data: seq<uint8>) returns (slices: seq<Slice>)
    ensures SlicesOf(slices, Split(data), data)
  {
    hide DecodeFrame, FrameLen, SlicesOf;
    FrameLenPositive(data);
    NoSlices(data);
    if data == [] {
      slices := [];
    } else {
      match FrameLen(data)
      case None =>
        var rest := SplitIsSlices(data[1..]);
        ShiftSlices(rest, Split(data[1..]), data, 1);
        slices := Shifted(rest, 1);
      case Some(n) =>
        if |data| < n {
          slices := [];
        } else {
          var rest := SplitIsSlices(data[n..]);
          ShiftSlices(rest, Split(data[n..]), data, n);
          slices := Shifted(rest, n);
          if DecodeFrame(data[..n]).Ok? {
            FirstSlice(slices, Split(data[n..]), data, n);
            slices := [Slice(0, n)] + slices;
          } else {
            assert Accepted(data[..n]) + Split(data[n..]) == Split(data[n..]);
          }
        }
    }
  }

  lemma FirstSlice(slices: seq<Slice>, frames: seq<RawFrame>, data: seq<uint8>, n: nat)
    requires 0 < n <= |data| && SlicesOf(slices, frames, data) && DecodeFrame(data[..n]).Ok?
    requires forall i :: 0 <= i < |slices| ==> n <= slices[i].start
    ensures SlicesOf([Slice(0, n)] + slices, Accepted(data[..n]) + frames, data)
  {
    hide DecodeFrame;
    assert data[0..n] == data[..n];
  }

  // ---- Frames with filler between them ----

  datatype Segment = Filler(bytes: seq<uint8>) | PacketV1(frame: Frame) | PacketV2(frame: Frame)

  predicate WellFormed(s: Segment) {
    match s
    case Filler(bytes) => STX_V1 !in bytes && STX_V2 !in bytes
    case PacketV1(f) => EncodedV1(f).Ok?
    case PacketV2(f) => EncodedV2(f).Ok?
  }

  function BytesOf(s: Segment): seq<uint8>
    requires WellFormed(s)
  {
    match s
    case Filler(bytes) => bytes
    case PacketV1(f) => EncodedV1(f).value
    case PacketV2(f) => EncodedV2(f).value
  }

  function FramesOf(s: Segment): seq<RawFrame>
    requires WellFormed(s)
  {
    if s.Filler? then [] else [RawFrame(s.frame.system, BytesOf(s))]
  }

  ghost predicate AllWellFormed(segments: seq<Segment>) {
    forall i :: 0 <= i < |segments| ==> WellFormed(segments[i])
  }

  ghost function AllBytes(segments: seq<Segment>): seq<uint8>
    requires AllWellFormed(segments)
  {
    if segments == [] then [] else BytesOf(segments[0]) + AllBytes(segments[1..])
  }

  ghost function AllFrames(segments: seq<Segment>): seq<RawFrame>
    requires AllWellFormed(segments)
  {
    if segments == [] then [] else FramesOf(segments[0]) + AllFrames(segments[1..])
  }

  lemma {:induction false} FillerIsSkipped(filler: seq<uint8>, rest: seq<uint8>)
    requires STX_V1 !in filler && STX_V2 !in filler
    ensures Split(filler + rest) == Split(rest)
    decreases filler
  {
    if filler == [] {
      assert filler + rest == rest;
    } else {
      assert (filler + rest)[0] in filler;
      assert (filler + rest)[1..] == filler[1..] + rest;
      FillerIsSkipped(filler[1..], rest);
    }
  }

  lemma PacketLength(s: Segment, rest: seq<uint8>)
    requires WellFormed(s) && !s.Filler?
    ensures FrameLen(BytesOf(s) + rest) == Some(|BytesOf(s)|)
    ensures DecodeFrame(BytesOf(s)) == Ok(s.frame)
  {
    hide DecodeFrame, ChecksumBytes;
    var p := BytesOf(s);
    if s.PacketV1? {
      DecodeEncodeV1(s.frame);
      assert p[0] == STX_V1 && p[1] as nat == |s.frame.payload|;
    } else {
      DecodeEncodeV2(s.frame);
      assert p[0] == STX_V2 && p[1] as nat == |s.frame.payload| && p[2] == 0;
    }
  }

  lemma PacketIsTaken(s: Segment, rest: seq<uint8>)
    requires WellFormed(s) && !s.Filler?
    ensures Split(BytesOf(s) + rest) == FramesOf(s) + Split(rest)
  {
    hide DecodeFrame, FrameLen, BytesOf, WellFormed;
    var p := BytesOf(s);
    PacketLength(s, rest);
    FrameLenPositive(p + rest);
    assert (p + rest)[..|p|] == p && (p + rest)[|p|..] == rest;
  }

  /** Any mix of encoded frames, with filler free of the magic bytes between them,
      is split into exactly those frames in order. */
  lemma {:induction false} SplitIsExact(segments: seq<Segment>)
    requires AllWellFormed(segments)
    ensures Split(AllBytes(segments)) == AllFrames(segments)
  {
    hide WellFormed, BytesOf, Split;
    if segments == [] {
      assert Split([]) == [] by { SplitOfNothing(); }
    } else {
      var rest := AllBytes(segments[1..]);
      SplitIsExact(segments[1..]);
      if segments[0].Filler? {
        FillerSegment(segments[0]);
        FillerIsSkipped(segments[0].bytes, rest);
      } else {
        PacketIsTaken(segments[0], rest);
      }
    }
  }

  lemma SplitOfNothing()
    ensures Split([]) == []
  {
  }

  lemma FillerSegment(s: Segment)
    requires WellFormed(s) && s.Filler?
    ensures STX_V1 !in s.bytes && STX_V2 !in s.bytes && BytesOf(s) == s.bytes
  {
  }

  // ---- A stray byte before a frame ----

  lemma {:induction false} NothingInShort(data: seq<uint8>)
    requires |data| < HEADER_V1 + CHECKSUM_LEN
    ensures Split(data) == []
  {
    if data != [] { NothingInShort(data[1..]); }
  }

  lemma FrameAlone(p: seq<uint8>)
    requires DecodeFrame(p).Ok?
    ensures FrameLen(p) == Some(|p|) && Split(p) == [RawFrame(DecodeFrame(p).value.system, p)]
  {
    hide Crc.Word, Crc.Checksum;
    assert p[..|p|] == p && p[|p|..] == [];
  }

  /** What a stray byte makes of the length of the frame behind it. */
  lemma StrayLength(b: uint8, p: seq<uint8>)
    requires DecodeFrame(p).Ok?
    ensures FrameLen([b] + p).None? <==> (b != STX_V1 && b != STX_V2) || (b == STX_V2 && |p| <= 10)
    ensures FrameLen([b] + p).Some? ==> 261 <= FrameLen([b] + p).value && |p| + 1 < FrameLen([b] + p).value + 8
  {
    hide Crc.Word, Crc.Checksum;
    var data := [b] + p;
    assert data[0] == b && data[1] == p[0] && |p| <= 267;
    assert p[0] == STX_V1 ==> |p| <= 263;
  }

  /** The bytes swallowed are not the frame itself. */
  lemma StrayIsNotTheFrame(b: uint8, p: seq<uint8>, n: nat)
    requires DecodeFrame(p).Ok? && FrameLen([b] + p) == Some(n) && n <= |p| + 1
    ensures ([b] + p)[..n] != p
  {
    hide Crc.Word, Crc.Checksum;
    var data := [b] + p;
    assert forall i :: 0 < i < n ==> data[..n][i] == p[i - 1];
  }

  /** A stray byte leaves a good frame behind it intact exactly when it starts no
      format, or starts MAVLink 2 before a frame too short to hold that header. */
  lemma StrayByteExact(b: uint8, p: seq<uint8>)
    requires DecodeFrame(p).Ok?
    ensures RawFrame(DecodeFrame(p).value.system, p) in Split([b] + p)
       <==> (b != STX_V1 && b != STX_V2) || (b == STX_V2 && |p| <= 10)
  {
    hide DecodeFrame, FrameLen;
    var data := [b] + p;
    FrameAlone(p);
    StrayLength(b, p);
    assert data[1..] == p;
    if FrameLen(data).Some? && FrameLen(data).value <= |data| {
      var n := FrameLen(data).value;
      StrayIsNotTheFrame(b, p, n);
      NothingInShort(data[n..]);
    }
  }

  // ---- The queue of pending frames ----

  /** What happens next: the socket delivers or fails, or the context is cancelled. */
  datatype Arrival = Datagram(data: seq<uint8>) | Timeout | SocketFailure | Cancelled

  datatype ReadResult = GotFrame(frame: RawFrame) | ReadFailed | ContextDone

  /** The bytes of a datagram that fit the read buffer. */
  function Fitting(data: seq<uint8>, limit: nat): seq<uint8> {
    if |data| <= limit then data else data[..limit]
  }

  predicate Over(inbox: seq<Arrival>) {
    inbox == [] || inbox[0].Cancelled?
  }

  /** The frames of every datagram that arrives before the context is cancelled. */
  function Arriving(inbox: seq<Arrival>, limit: nat): seq<RawFrame> {
    if Over(inbox) then []
    else
      (if inbox[0].Datagram? then Split(Fitting(inbox[0].data, limit)) else [])
      + Arriving(inbox[1..], limit)
  }

  /** A datagram gives the frames of its first bytes, as many as the buffer holds; a
      timeout or a failure gives nothing, and what comes after the context is done is
      never read. */
  lemma ArrivingExact(inbox: seq<Arrival>, limit: nat)
    requires inbox != []
    ensures inbox[0].Datagram? && |inbox[0].data| <= limit ==>
      Arriving(inbox, limit) == Split(inbox[0].data) + Arriving(inbox[1..], limit)
    ensures inbox[0].Datagram? && |inbox[0].data| > limit ==>
      Arriving(inbox, limit) == Split(inbox[0].data[..limit]) + Arriving(inbox[1..], limit)
    ensures inbox[0].Timeout? || inbox[0].SocketFailure? ==>
      Arriving(inbox, limit) == Arriving(inbox[1..], limit)
    ensures inbox[0].Cancelled? ==> Arriving(inbox, limit) == []
    ensures Arriving([], limit) == []
  {
    hide Split;
  }

  class UDPSource {
    const maxDatagramBytes: nat
    var pending: seq<RawFrame>
    /** What is still to happen; where it ends the context is done as well. */
    var inbox: seq<Arrival>

    constructor (limit: int, arrivals: seq<Arrival>)
      ensures maxDatagramBytes == (if limit <= 0 then 4096 else limit)
      ensures pending == [] && inbox == arrivals
    {
      maxDatagramBytes := if limit <= 0 then 4096 else limit;
      pending := [];
      inbox := arrivals;
    }

    /** Everything still to be handed out, in order. */
    ghost function Backlog(): seq<RawFrame>
      reads this
    {
      pending + Arriving(inbox, maxDatagramBytes)
    }

    /** Hands out the first frame of the backlog; a failure or the end of the
        context hands out nothing and loses nothing. */
    method Read() returns (r: ReadResult)
      modifies this
      ensures r.GotFrame? ==> old(Backlog()) == [r.frame] + Backlog()
      ensures !r.GotFrame? ==> Backlog() == old(Backlog()) && pending == []
      ensures r.ContextDone? ==> Over(inbox) && old(Backlog()) == []
      ensures r.ReadFailed? ==> |inbox| < old(|inbox|)
      ensures r.GotFrame? ==>
        |inbox| < old(|inbox|) || (|inbox| == old(|inbox|) && |pending| < old(|pending|))
    {
      hide Split;
      while true
        invariant Backlog() == old(Backlog())
        invariant |inbox| <= old(|inbox|) && (|inbox| < old(|inbox|) || pending == old(pending))
        decreases |inbox|
      {
        if |pending| > 0 {
          var frame := pending[0];
          ghost var before := Backlog();
          pending := pending[1..];
          assert before == [frame] + Backlog();
          return GotFrame(frame);
        }
        if Over(inbox) { return ContextDone; }
        var arrival := inbox[0];
        ghost var later := Arriving(inbox[1..], maxDatagramBytes);
        inbox := inbox[1..];
        match arrival
        case Timeout => continue;
        case SocketFailure => return ReadFailed;
        case Datagram(data) =>
          var frames := FramesFromDatagram(Fitting(data, maxDatagramBytes));
          assert old(Backlog()) == frames + later;
          if frames == [] { continue; }
          pending := pending + frames[1..];
          assert [frames[0]] + Backlog() == frames + later;
          return GotFrame(frames[0]);
      }
    }

    /** The receive loop: every frame of every datagram before the context is done is
        recorded once, in order, whatever fails in between. */
    method ReceiveAll() returns (recorded: seq<RawFrame>)
      modifies this
      ensures recorded == old(Backlog()) && pending == [] && Over(inbox)
    {
      recorded := [];
      var done := false;
      while !done
        invariant recorded + Backlog() == old(Backlog())
        invariant done ==> Over(inbox) && Backlog() == []
        decreases !done, |inbox|, |pending|
      {
        var r := Read();
        match r
        case GotFrame(frame) => recorded := recorded + [frame];
        case ReadFailed =>
        case ContextDone => done := true;
      }
    }
  }
}
