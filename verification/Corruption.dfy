/** Which corruptions of an accepted frame the decoder rejects. */
module Corruption {
  import opened Bytes
  import opened Items
  import opened Crc
  import opened Frames

  /** The bytes that decide format, length and message are intact. */
  predicate KeepsFraming(data: seq<uint8>, bad: seq<uint8>)
    requires |data| == |bad| >= HEADER_V1 + CHECKSUM_LEN
  {
    && bad[0] == data[0] && bad[1] == data[1]
    && (data[0] == STX_V1 ==> bad[5] == data[5])
    && (data[0] == STX_V2 ==> |data| > 9 ==> bad[7] == data[7] && bad[8] == data[8] && bad[9] == data[9])
  }

  function BodyEnd(data: seq<uint8>): int {
    |data| - CHECKSUM_LEN
  }

  /** What acceptance says about the checksum, in either format. */
  lemma AcceptedChecksum(data: seq<uint8>)
    requires DecodeFrame(data).Ok?
    ensures var end, extra := BodyEnd(data), CrcExtra(DecodeFrame(data).value.message);
            && end >= HEADER_V1 && extra.Some?
            && Word(data[end], data[end + 1]) == Checksum(data[1..end], extra.value)
  {
    hide Word, Checksum;
  }

  lemma SameMessage(data: seq<uint8>, bad: seq<uint8>)
    requires |data| == |bad| && DecodeFrame(data).Ok? && DecodeFrame(bad).Ok?
    requires KeepsFraming(data, bad)
    ensures DecodeFrame(data).value.message == DecodeFrame(bad).value.message
  {
  }

  /** A change confined to two adjacent checksummed bytes that leaves the framing
      intact (the sequence, system, component and flag bytes, and the payload) is
      always rejected. */
  lemma AdjacentCorruptionRejected(data: seq<uint8>, bad: seq<uint8>, i: nat)
    requires DecodeFrame(data).Ok? && |bad| == |data| && bad != data
    requires 1 <= i && i + 1 < BodyEnd(data) && KeepsFraming(data, bad)
    requires forall k :: 0 <= k < |data| && k != i && k != i + 1 ==> bad[k] == data[k]
    ensures DecodeFrame(bad).Err?
  {
    hide Word, Checksum, DecodeFrame, KeepsFraming;
    if DecodeFrame(bad).Ok? {
      AcceptedChecksum(data);
      AcceptedChecksum(bad);
      SameMessage(data, bad);
      var end := BodyEnd(data);
      var before, after := data[1..i], data[i + 2..end];
      assert data[1..end] == before + [data[i], data[i + 1]] + after;
      assert bad[1..end] == before + [bad[i], bad[i + 1]] + after;
      AdjacentPairDetected(before, data[i], data[i + 1], bad[i], bad[i + 1], after,
                           CrcExtra(DecodeFrame(data).value.message).value);
    }
  }

  /** A change confined to the two checksum bytes is always rejected. */
  lemma ChecksumCorruptionRejected(data: seq<uint8>, bad: seq<uint8>)
    requires DecodeFrame(data).Ok? && |bad| == |data| && bad != data
    requires bad[..BodyEnd(data)] == data[..BodyEnd(data)]
    ensures DecodeFrame(bad).Err?
  {
    hide Word, Checksum, DecodeFrame, KeepsFraming;
    if DecodeFrame(bad).Ok? {
      AcceptedChecksum(data);
      AcceptedChecksum(bad);
      var end := BodyEnd(data);
      assert forall k :: 0 <= k < end ==> bad[k] == bad[..end][k] == data[..end][k] == data[k];
      FramingOfPrefix(data, bad);
      SameMessage(data, bad);
      assert bad[1..end] == data[1..end];
      BytesOfWord(data[end], data[end + 1]);
      BytesOfWord(bad[end], bad[end + 1]);
    }
  }

  lemma FramingOfPrefix(data: seq<uint8>, bad: seq<uint8>)
    requires DecodeFrame(data).Ok? && |bad| == |data|
    requires forall k :: 0 <= k < BodyEnd(data) ==> bad[k] == data[k]
    ensures KeepsFraming(data, bad)
  {
  }

  // ---- The last payload byte together with the first checksum byte ----

  lemma TwoStepsOfDifference(t: bv8, e: bv8)
    ensures Bit8(Spread(t)) == e as bv16 <==> (t == 0 && e == 0) || (t == 0x91 && e == 0x85)
  {
  }

  lemma LastByteDifference(k: bv16, a: bv8, a': bv8, x: bv8)
    ensures Xor(Bit8(Xor(Bit8(Xor(k, a as bv16)), x as bv16)), Bit8(Xor(Bit8(Xor(k, a' as bv16)), x as bv16)))
         == Bit8(Spread(a ^ a'))
  {
    hide Bit8, Spread, Xor;
    var s, t := Bit8(Xor(k, a as bv16)), Bit8(Xor(k, a' as bv16));
    Bit8Xor(Xor(s, x as bv16), Xor(t, x as bv16));
    XorCommon(s, t, x as bv16);
    Bit8Xor(Xor(k, a as bv16), Xor(k, a' as bv16));
    XorCommon(a as bv16, a' as bv16, k);
    WidenXor(a, a');
    Bit8OfLow(a ^ a');
  }

  lemma XorCommon(s: bv16, t: bv16, x: bv16)
    ensures Xor(Xor(s, x), Xor(t, x)) == Xor(s, t) == Xor(Xor(x, s), Xor(x, t))
  {
  }

  lemma XorCancelsLeft(c: bv16, x: bv16, y: bv16)
    requires Xor(c, x) == Xor(c, y)
    ensures x == y
  {
  }

  lemma WordIsXor(low: uint8, high: uint8)
    ensures Word(low, high) == Xor(ToBits(low) as bv16, (ToBits(high) as bv16) << 8)
  {
  }

  lemma WordsDiffer(low: uint8, low': uint8, high: uint8, c': bv16)
    ensures c' == Word(low', high)
       <==> Xor(Word(low, high), c') == Xor(ToBits(low) as bv16, ToBits(low') as bv16)
  {
    hide Xor, Word, ToBits;
    var l, l', h := ToBits(low) as bv16, ToBits(low') as bv16, (ToBits(high) as bv16) << 8;
    WordIsXor(low, high);
    WordIsXor(low', high);
    XorCommon(l, l', h);
    if Xor(Word(low, high), c') == Xor(l, l') {
      XorCancelsLeft(Word(low, high), c', Word(low', high));
    }
  }

  lemma ChecksumOfLast(body: seq<uint8>, a: uint8, extra: uint8)
    ensures Checksum(body + [a], extra)
         == Bit8(Xor(Bit8(Xor(Register(0xffff, body), ToBits(a) as bv16)), ToBits(extra) as bv16))
  {
    hide Bit8, Xor, ToBits, Register;
    assert body + [a] + [extra] == body + [a, extra];
    RegisterAppend(0xffff, body, [a, extra]);
    RegisterOfPair(Register(0xffff, body), a, extra);
  }

  /** The extra byte stands between the payload and the checksum, so one corruption
      of the last payload byte and the first checksum byte goes undetected, and
      only one: flipping the bits 0x91 and 0x85. */
  lemma StraddlingCorruptionExact(data: seq<uint8>, bad: seq<uint8>)
    requires DecodeFrame(data).Ok? && DecodeFrame(data).value.payload != []
    requires |bad| == |data|
    requires forall k :: 0 <= k < |data| && k != BodyEnd(data) - 1 && k != BodyEnd(data) ==> bad[k] == data[k]
    ensures DecodeFrame(bad).Ok? <==>
      var end := BodyEnd(data);
      Undetected(ToBits(data[end - 1]), ToBits(bad[end - 1]), ToBits(data[end]), ToBits(bad[end]))
  {
    hide Checksum, Bit8, Spread, SpreadTwice, Xor, ToBits, DecodeFrame, Word, Undetected;
    AcceptedChecksum(data);
    var end, extra := BodyEnd(data), CrcExtra(DecodeFrame(data).value.message).value;
    StraddledAcceptance(data, bad);
    var body := data[1..end - 1];
    assert data[1..end] == body + [data[end - 1]];
    assert bad[1..end] == body + [bad[end - 1]];
    StraddleDecision(body, data[end - 1], bad[end - 1], data[end], bad[end], data[end + 1], extra);
  }

  lemma StraddleDecision(body: seq<uint8>, last: uint8, last': uint8, low: uint8, low': uint8,
                         high: uint8, extra: uint8)
    requires Word(low, high) == Checksum(body + [last], extra)
    ensures Word(low', high) == Checksum(body + [last'], extra)
       <==> Undetected(ToBits(last), ToBits(last'), ToBits(low), ToBits(low'))
  {
    hide Checksum, SpreadTwice, Xor, ToBits, Word, Undetected;
    StraddledChecksums(body, last, last', extra);
    WordsDiffer(low, low', high, Checksum(body + [last'], extra));
    MaskedDifference(ToBits(last), ToBits(last'), ToBits(low), ToBits(low'));
  }

  lemma StraddledChecksums(body: seq<uint8>, last: uint8, last': uint8, extra: uint8)
    ensures Xor(Checksum(body + [last], extra), Checksum(body + [last'], extra))
         == SpreadTwice(ToBits(last), ToBits(last'))
  {
    hide Checksum, Bit8, Spread, Xor, ToBits, Register;
    ChecksumOfLast(body, last, extra);
    ChecksumOfLast(body, last', extra);
    LastByteDifference(Register(0xffff, body), ToBits(last), ToBits(last'), ToBits(extra));
  }

  /** What a changed last byte does to the checksum, one extra byte later. */
  function SpreadTwice(a: bv8, a': bv8): bv16 {
    Bit8(Spread(a ^ a'))
  }

  predicate Undetected(a: bv8, a': bv8, l: bv8, l': bv8) {
    (a' == a && l' == l) || (a' == a ^ 0x91 && l' == l ^ 0x85)
  }

  lemma MaskedDifference(a: bv8, a': bv8, l: bv8, l': bv8)
    ensures SpreadTwice(a, a') == Xor(l as bv16, l' as bv16) <==> Undetected(a, a', l, l')
  {
    hide Bit8, Spread, Xor;
    WidenXor(l, l');
    TwoStepsOfDifference(a ^ a', l ^ l');
    DifferenceMask(a, a', 0x91);
    DifferenceMask(l, l', 0x85);
    DifferenceMask(a, a', 0);
    DifferenceMask(l, l', 0);
    NoDifference(a);
    NoDifference(l);
  }

  lemma DifferenceMask(a: bv8, b: bv8, mask: bv8)
    ensures a ^ b == mask <==> b == a ^ mask
  {
  }

  lemma NoDifference(a: bv8)
    ensures a ^ 0 == a
  {
  }

  lemma StraddledAcceptance(data: seq<uint8>, bad: seq<uint8>)
    requires DecodeFrame(data).Ok? && DecodeFrame(data).value.payload != []
    requires |bad| == |data|
    requires forall k :: 0 <= k < |data| && k != BodyEnd(data) - 1 && k != BodyEnd(data) ==> bad[k] == data[k]
    ensures var end := BodyEnd(data);
            DecodeFrame(bad).Ok? <==>
              Word(bad[end], bad[end + 1])
              == Checksum(bad[1..end], CrcExtra(DecodeFrame(data).value.message).value)
  {
    hide Word, Checksum;
  }
}
