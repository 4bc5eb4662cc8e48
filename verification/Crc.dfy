/** The X.25 frame checksum: the byte-wise shift-and-xor form and the bit-wise one. */
module Crc {
  import opened Bytes

  // ---- Bytes as bit patterns ----

  function NibbleBits(n: nat): (v: bv8)
    requires n < 16
    ensures v < 16
  {
    match n
    case 0 => 0 case 1 => 1 case 2 => 2 case 3 => 3 case 4 => 4 case 5 => 5 case 6 => 6 case 7 => 7
    case 8 => 8 case 9 => 9 case 10 => 10 case 11 => 11 case 12 => 12 case 13 => 13 case 14 => 14
    case _ => 15
  }

  function NibbleValue(v: bv8): (n: nat)
    ensures n < 16
  {
    if v == 0 then 0 else if v == 1 then 1 else if v == 2 then 2 else if v == 3 then 3
    else if v == 4 then 4 else if v == 5 then 5 else if v == 6 then 6 else if v == 7 then 7
    else if v == 8 then 8 else if v == 9 then 9 else if v == 10 then 10 else if v == 11 then 11
    else if v == 12 then 12 else if v == 13 then 13 else if v == 14 then 14 else 15
  }

  function ToBits(b: uint8): bv8 {
    (NibbleBits(b as int / 16) << 4) | NibbleBits(b as int % 16)
  }

  function FromBits(v: bv8): uint8 {
    (NibbleValue(v >> 4) * 16 + NibbleValue(v & 15)) as uint8
  }

  lemma NibbleRoundTrip(n: nat)
    requires n < 16
    ensures NibbleValue(NibbleBits(n)) == n
  {
  }

  lemma NibbleBitsRoundTrip(v: bv8)
    requires v < 16
    ensures NibbleBits(NibbleValue(v)) == v
  {
  }

  lemma NibblesApart(hi: bv8, lo: bv8)
    requires hi < 16 && lo < 16
    ensures ((hi << 4) | lo) >> 4 == hi && ((hi << 4) | lo) & 15 == lo
  {
  }

  lemma NibblesTogether(v: bv8)
    ensures v >> 4 < 16 && v & 15 < 16 && ((v >> 4) << 4) | (v & 15) == v
  {
  }

  lemma ByteRoundTrip(b: uint8)
    ensures FromBits(ToBits(b)) == b
  {
    hide NibbleBits, NibbleValue;
    var n := b as int;
    NibblesApart(NibbleBits(n / 16), NibbleBits(n % 16));
    NibbleRoundTrip(n / 16);
    NibbleRoundTrip(n % 16);
  }

  lemma BitsRoundTrip(v: bv8)
    ensures ToBits(FromBits(v)) == v
  {
    hide NibbleBits, NibbleValue;
    NibblesTogether(v);
    NibbleBitsRoundTrip(v >> 4);
    NibbleBitsRoundTrip(v & 15);
  }

  // ---- The two forms ----

  /** One byte into the register, shifted and xored as the encoder does it. */
  function Step(crc: bv16, b: bv8): bv16 {
    Xor(crc >> 8, Spread(Low(crc, b)))
  }

  function Low(crc: bv16, b: bv8): bv8 {
    b ^ ((crc & 0xff) as bv8)
  }

  function Xor(x: bv16, y: bv16): bv16 {
    x ^ y
  }

  function Spread(tmp: bv8): bv16 {
    var t := (tmp ^ (tmp << 4)) as bv16;
    (t << 8) ^ (t << 3) ^ (t >> 4)
  }

  /** One bit of the reflected polynomial 0x8408. */
  function Bit(crc: bv16): bv16 {
    if crc & 1 == 1 then (crc >> 1) ^ 0x8408 else crc >> 1
  }

  function Bit2(crc: bv16): bv16 {
    Bit(Bit(crc))
  }

  function Bit4(crc: bv16): bv16 {
    Bit2(Bit2(crc))
  }

  function Bit8(crc: bv16): bv16 {
    Bit4(Bit4(crc))
  }

  /** The bit-at-a-time checksum register after a byte string. */
  function Register(crc: bv16, data: seq<uint8>): bv16
    decreases data
  {
    if data == [] then crc
    else Register(Bit8(Xor(crc, ToBits(data[0]) as bv16)), data[1..])
  }

  /** The checksum of a message: its bytes and then its extra byte. */
  function Checksum(data: seq<uint8>, extra: uint8): bv16 {
    Register(0xffff, data + [extra])
  }

  // ---- Bit steps are linear and injective ----

  lemma ShiftXor(x: bv16, y: bv16)
    ensures (x ^ y) >> 1 == (x >> 1) ^ (y >> 1)
    ensures (x ^ y) & 1 == (x & 1) ^ (y & 1)
    ensures x & 1 == 0 || x & 1 == 1
  {
  }

  lemma BitLinear(x: bv16, y: bv16)
    ensures Bit(x ^ y) == Bit(x) ^ Bit(y)
  {
    ShiftXor(x, y);
    ShiftXor(y, x);
    if x & 1 == 1 {
      if y & 1 == 1 { } else { assert y & 1 == 0; }
    } else {
      assert x & 1 == 0;
      if y & 1 == 1 { } else { assert y & 1 == 0; }
    }
  }

  lemma BitXor(x: bv16, y: bv16)
    ensures Bit(Xor(x, y)) == Xor(Bit(x), Bit(y))
  {
    BitLinear(x, y);
  }

  lemma Bit2Xor(x: bv16, y: bv16)
    ensures Bit2(Xor(x, y)) == Xor(Bit2(x), Bit2(y))
  {
    hide Bit, Xor;
    BitXor(x, y);
    BitXor(Bit(x), Bit(y));
  }

  lemma Bit8Xor(x: bv16, y: bv16)
    ensures Bit8(Xor(x, y)) == Xor(Bit8(x), Bit8(y))
  {
    hide Bit2, Xor;
    Bit2Xor(x, y);
    Bit2Xor(Bit2(x), Bit2(y));
    Bit2Xor(Bit4(x), Bit4(y));
    Bit2Xor(Bit2(Bit4(x)), Bit2(Bit4(y)));
  }

  lemma Bit2Injective(x: bv16, y: bv16)
    requires Bit2(x) == Bit2(y)
    ensures x == y
  {
  }

  lemma Bit8Injective(x: bv16, y: bv16)
    requires Bit8(x) == Bit8(y)
    ensures x == y
  {
    hide Bit2;
    Bit2Injective(Bit2(Bit4(x)), Bit2(Bit4(y)));
    Bit2Injective(Bit4(x), Bit4(y));
    Bit2Injective(Bit2(x), Bit2(y));
    Bit2Injective(x, y);
  }

  /** A byte in the low half is spread; a byte in the high half just moves down. */
  lemma Bit8OfLow(t: bv8)
    ensures Bit8(t as bv16) == Spread(t)
  {
  }

  lemma Bit8OfHigh(crc: bv16)
    ensures Bit8(crc & 0xff00) == crc >> 8
  {
  }

  lemma HalvesApart(crc: bv16, b: bv8)
    ensures Xor(crc, b as bv16) == Xor(crc & 0xff00, Low(crc, b) as bv16)
  {
  }

  /** The shift-and-xor step is eight bit steps. */
  lemma StepIsEightBits(crc: bv16, b: bv8)
    ensures Step(crc, b) == Bit8(Xor(crc, b as bv16))
  {
    hide Bit8, Spread, Xor, Low;
    HalvesApart(crc, b);
    Bit8OfLow(Low(crc, b));
    Bit8OfHigh(crc);
    Bit8Xor(crc & 0xff00, Low(crc, b) as bv16);
  }

  /** The loop computes the bit-wise checksum with initial value 0xFFFF and no
      final complement, the extra byte last. */
  method X25Checksum(data: seq<uint8>, extra: uint8) returns (crc: bv16)
    ensures crc == Checksum(data, extra)
  {
    hide Bit8, Step, ToBits, Xor;
    crc := 0xffff;
    var all := data + [extra];
    for i := 0 to |data|
      invariant Register(crc, all[i..]) == Checksum(data, extra)
    {
      assert all[i..][1..] == all[i + 1..];
      StepIsEightBits(crc, ToBits(data[i]));
      crc := Step(crc, ToBits(data[i]));
    }
    assert all[|data|..] == [extra];
    assert [extra][1..] == [];
    StepIsEightBits(crc, ToBits(extra));
    crc := Step(crc, ToBits(extra));
  }

  // ---- What the checksum detects ----

  lemma XorCancels(x: bv16, y: bv16, z: bv16)
    requires Xor(x, z) == Xor(y, z)
    ensures x == y
  {
  }

  /** The register at the start of the rest of a message can be read off its end. */
  lemma {:induction false} RegisterInjective(c: bv16, d: bv16, data: seq<uint8>)
    requires Register(c, data) == Register(d, data)
    ensures c == d
    decreases data
  {
    hide Bit8, Xor, ToBits;
    if data != [] {
      var b := ToBits(data[0]) as bv16;
      RegisterInjective(Bit8(Xor(c, b)), Bit8(Xor(d, b)), data[1..]);
      Bit8Injective(Xor(c, b), Xor(d, b));
      XorCancels(c, d, b);
    }
  }

  lemma {:induction false} RegisterAppend(c: bv16, xs: seq<uint8>, ys: seq<uint8>)
    ensures Register(c, xs + ys) == Register(Register(c, xs), ys)
    decreases xs
  {
    hide Bit8, Xor, ToBits;
    if xs == [] {
      assert xs + ys == ys;
    } else {
      assert (xs + ys)[1..] == xs[1..] + ys;
      RegisterAppend(Bit8(Xor(c, ToBits(xs[0]) as bv16)), xs[1..], ys);
    }
  }

  lemma XorPairs(k: bv16, s: bv16, t: bv16, b: bv8, d: bv8)
    requires Xor(Xor(k, s), b as bv16) == Xor(Xor(k, t), d as bv16)
    ensures Xor(s, t) == (b ^ d) as bv16
  {
  }

  lemma SpreadOfDifference(a: bv8, c: bv8)
    ensures Xor(Spread(a), Spread(c)) == Spread(a ^ c)
  {
    hide Bit8, Spread, Xor;
    Bit8OfLow(a);
    Bit8OfLow(c);
    Bit8OfLow(a ^ c);
    Bit8Xor(a as bv16, c as bv16);
    WidenXor(a, c);
  }

  lemma WidenXor(a: bv8, c: bv8)
    ensures Xor(a as bv16, c as bv16) == (a ^ c) as bv16
  {
  }

  /** A spread byte that stays within eight bits is zero. */
  lemma SpreadLeavesLow(t: bv8, e: bv8)
    requires Spread(t) == e as bv16
    ensures t == 0 && e == 0
  {
  }

  lemma ZeroDifference(a: bv8, c: bv8)
    requires a ^ c == 0
    ensures a == c
  {
  }

  /** Two steps determine the pair of bytes that drove them. */
  lemma TwoStepsInjective(c: bv16, a: bv8, b: bv8, a': bv8, b': bv8)
    requires Bit8(Xor(Bit8(Xor(c, a as bv16)), b as bv16))
          == Bit8(Xor(Bit8(Xor(c, a' as bv16)), b' as bv16))
    ensures a == a' && b == b'
  {
    hide Bit8, Spread, Xor;
    var s, t := Bit8(Xor(c, a as bv16)), Bit8(Xor(c, a' as bv16));
    Bit8Injective(Xor(s, b as bv16), Xor(t, b' as bv16));
    Bit8Xor(c, a as bv16);
    Bit8Xor(c, a' as bv16);
    Bit8OfLow(a);
    Bit8OfLow(a');
    XorPairs(Bit8(c), Spread(a), Spread(a'), b, b');
    SpreadOfDifference(a, a');
    SpreadLeavesLow(a ^ a', b ^ b');
    ZeroDifference(a, a');
    ZeroDifference(b, b');
  }

  lemma ToBitsInjective(a: uint8, b: uint8)
    requires ToBits(a) == ToBits(b)
    ensures a == b
  {
  }

  lemma RegisterOfPair(c: bv16, a: uint8, b: uint8)
    ensures Register(c, [a, b])
         == Bit8(Xor(Bit8(Xor(c, ToBits(a) as bv16)), ToBits(b) as bv16))
  {
    hide Bit8, Xor, ToBits;
    var d := Bit8(Xor(c, ToBits(a) as bv16));
    assert [b][1..] == [];
    assert Register(d, [b]) == Bit8(Xor(d, ToBits(b) as bv16));
    assert [a, b][1..] == [b];
  }

  /** A change confined to two adjacent bytes always changes the checksum. */
  lemma AdjacentPairDetected(before: seq<uint8>, a: uint8, b: uint8, a': uint8, b': uint8,
                             after: seq<uint8>, extra: uint8)
    requires Checksum(before + [a, b] + after, extra) == Checksum(before + [a', b'] + after, extra)
    ensures a == a' && b == b'
  {
    hide Bit8, Xor, ToBits, Register;
    var c, rest := Register(0xffff, before), after + [extra];
    assert before + [a, b] + after + [extra] == before + ([a, b] + rest);
    assert before + [a', b'] + after + [extra] == before + ([a', b'] + rest);
    RegisterAppend(0xffff, before, [a, b] + rest);
    RegisterAppend(0xffff, before, [a', b'] + rest);
    RegisterAppend(c, [a, b], rest);
    RegisterAppend(c, [a', b'], rest);
    RegisterInjective(Register(c, [a, b]), Register(c, [a', b']), rest);
    RegisterOfPair(c, a, b);
    RegisterOfPair(c, a', b');
    TwoStepsInjective(c, ToBits(a), ToBits(b), ToBits(a'), ToBits(b'));
    ToBitsInjective(a, a');
    ToBitsInjective(b, b');
  }

  // ---- The checksum on the wire, low byte first ----

  function LowByte(crc: bv16): uint8 {
    FromBits((crc & 0xff) as bv8)
  }

  function HighByte(crc: bv16): uint8 {
    FromBits((crc >> 8) as bv8)
  }

  function Word(low: uint8, high: uint8): bv16 {
    (ToBits(low) as bv16) | ((ToBits(high) as bv16) << 8)
  }

  lemma HalvesRejoin(crc: bv16)
    ensures (((crc & 0xff) as bv8) as bv16) | ((((crc >> 8) as bv8) as bv16) << 8) == crc
  {
  }

  lemma WordOfBytes(crc: bv16)
    ensures Word(LowByte(crc), HighByte(crc)) == crc
  {
    hide ToBits, FromBits;
    BitsRoundTrip((crc & 0xff) as bv8);
    BitsRoundTrip((crc >> 8) as bv8);
    HalvesRejoin(crc);
  }

  lemma BitsOfWord(l: bv8, h: bv8)
    ensures var w := (l as bv16) | ((h as bv16) << 8);
            (w & 0xff) as bv8 == l && (w >> 8) as bv8 == h
  {
  }

  lemma BytesOfWord(low: uint8, high: uint8)
    ensures LowByte(Word(low, high)) == low && HighByte(Word(low, high)) == high
  {
    hide ToBits, FromBits;
    BitsOfWord(ToBits(low), ToBits(high));
    ByteRoundTrip(low);
    ByteRoundTrip(high);
  }
}
