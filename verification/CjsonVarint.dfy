// Variable-length integers: the bytes of a number, the zig-zag map of signed numbers,
// and reading as encoding/binary does it.

module Varint {
  type byte = n: int | 0 <= n < 256

  // binary.PutUvarint
  function Bytes(v: nat): (s: seq<byte>)
    ensures s != []
  {
    if v < 128 then [v] else [v % 128 + 128] + Bytes(v / 128)
  }

  function Pow128(i: nat): nat { if i == 0 then 1 else 128 * Pow128(i - 1) }

  // binary.Uvarint from byte i on, with x read so far: the number and how many bytes it
  // took; 0 when they do not suffice, negative when the number has more than 64 bits.
  function ReadFrom(s: seq<byte>, i: nat, x: nat): (nat, int)
    requires i <= |s|
    decreases |s| - i
  {
    if i == |s| then (0, 0)
    else if i == 10 then (0, -11)
    else if s[i] < 128 then (if i == 9 && s[i] > 1 then (0, -10) else (x + s[i] * Pow128(i), i + 1))
    else ReadFrom(s, i + 1, x + s[i] % 128 * Pow128(i))
  }

  function Read(s: seq<byte>): (nat, int) { ReadFrom(s, 0, 0) }

  lemma Digits(v: nat, p: nat)
    ensures v % 128 * p + v / 128 * (128 * p) == v * p
    ensures v / 128 * (128 * p) <= v * p
  {
    assert v == v / 128 * 128 + v % 128;
    assert v * p == v / 128 * 128 * p + v % 128 * p;
    assert v / 128 * (128 * p) == v / 128 * 128 * p;
  }

  lemma {:induction false} ReadsFrom(s: seq<byte>, i: nat, x: nat, v: nat)
    requires i <= 9 && i + |Bytes(v)| <= |s| && s[i..i + |Bytes(v)|] == Bytes(v)
    requires v * Pow128(i) < 0x1_0000_0000_0000_0000
    ensures ReadFrom(s, i, x) == (x + v * Pow128(i), i + |Bytes(v)|)
    decreases v
  {
    assert s[i] == Bytes(v)[0];
    var p := Pow128(i);
    if i == 9 {
      Pow9();
      assert v < 2;
    }
    if v >= 128 {
      var t := Bytes(v / 128);
      assert s[i + 1..i + 1 + |t|] == s[i..i + |Bytes(v)|][1..] == t;
      Digits(v, p);
      ReadsFrom(s, i + 1, x + v % 128 * p, v / 128);
    }
  }

  lemma Pow9()
    ensures Pow128(9) == 0x8000_0000_0000_0000
  {
    assert Pow128(5) == 0x8_0000_0000;
  }

  // A number below 2^64 is read back from its bytes, whatever follows them.
  lemma ReadsBack(v: nat, rest: seq<byte>)
    requires v < 0x1_0000_0000_0000_0000
    ensures Read(Bytes(v) + rest) == (v, |Bytes(v)|)
  {
    assert (Bytes(v) + rest)[0..|Bytes(v)|] == Bytes(v);
    ReadsFrom(Bytes(v) + rest, 0, 0, v);
  }

  // uint64(v<<1) ^ uint64(v>>63)
  function ZigZag(v: int): (u: nat)
    ensures -0x8000_0000_0000_0000 <= v < 0x8000_0000_0000_0000 ==> u < 0x1_0000_0000_0000_0000
  {
    if v >= 0 then 2 * v else -2 * v - 1
  }

  // int64(u>>1) ^ -int64(u&1)
  function UnZigZag(u: nat): int { if u % 2 == 0 then u / 2 else -(u / 2) - 1 }

  lemma ZigZagInverse(v: int)
    ensures UnZigZag(ZigZag(v)) == v
  {
  }
}
