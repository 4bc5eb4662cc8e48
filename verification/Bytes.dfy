/** Unsigned bytes and their hexadecimal text. */
module Bytes {

  newtype uint8 = x: int | 0 <= x < 256

  function HexDigit(n: nat): (c: char)
    requires n < 16
    ensures c != '\0' && c != '\n'
  {
    if n < 10 then '0' + n as char else 'a' + (n - 10) as char
  }

  /** hex.EncodeToString. */
  function Hex(raw: seq<uint8>): (s: string)
    ensures |s| == 2 * |raw|
    ensures '\0' !in s && '\n' !in s
  {
    if raw == [] then ""
    else
      var n := raw[0] as int;
      [HexDigit(n / 16), HexDigit(n % 16)] + Hex(raw[1..])
  }

  lemma {:induction false} HexInjective(a: seq<uint8>, b: seq<uint8>)
    requires Hex(a) == Hex(b)
    ensures a == b
  {
    assert |a| == |b|;
    if a != [] {
      var s := Hex(a);
      assert s == [s[0], s[1]] + Hex(a[1..]) && s == [s[0], s[1]] + Hex(b[1..]);
      assert Hex(a[1..]) == s[2..] == Hex(b[1..]);
      HexInjective(a[1..], b[1..]);
      assert a == [a[0]] + a[1..] && b == [b[0]] + b[1..];
    }
  }
}
