// hasFFByte of cjson/parse_uuid_fast_fallback.go, on 64-bit words.

module FFByte {
  import opened Varint

  function HasFFByte(x: bv64): bool {
    var v := x ^ 0xFFFF_FFFF_FFFF_FFFF;
    (v - 0x0101_0101_0101_0101) & (v ^ 0xFFFF_FFFF_FFFF_FFFF) & 0x8080_8080_8080_8080 != 0
  }

  // The word with the given bytes.
  function Word(p0: bv64, p1: bv64, p2: bv64, p3: bv64, p4: bv64, p5: bv64, p6: bv64, p7: bv64): bv64 {
    (p0 << 56) | (p1 << 48) | (p2 << 40) | (p3 << 32) | (p4 << 24) | (p5 << 16) | (p6 << 8) | p7
  }

  lemma FFInWord(p0: bv64, p1: bv64, p2: bv64, p3: bv64, p4: bv64, p5: bv64, p6: bv64, p7: bv64)
    requires p0 < 256 && p1 < 256 && p2 < 256 && p3 < 256 && p4 < 256 && p5 < 256 && p6 < 256 && p7 < 256
    ensures HasFFByte(Word(p0, p1, p2, p3, p4, p5, p6, p7)) <==>
      p0 == 0xFF || p1 == 0xFF || p2 == 0xFF || p3 == 0xFF || p4 == 0xFF || p5 == 0xFF || p6 == 0xFF || p7 == 0xFF
  {
  }

  lemma AsBv(b: byte)
    ensures (b as bv64) < 256 && (b as bv64 == 0xFF <==> b == 255)
  {
  }

  function Bv(b: byte): (r: bv64)
    ensures r < 256 && (r == 0xFF <==> b == 255)
  {
    AsBv(b);
    b as bv64
  }

  // hasFFByte of the word made of eight bytes
  function HasFF(p: seq<byte>): bool
    requires |p| == 8
  {
    HasFFByte(Word(Bv(p[0]), Bv(p[1]), Bv(p[2]), Bv(p[3]), Bv(p[4]), Bv(p[5]), Bv(p[6]), Bv(p[7])))
  }

  // The bit trick is exact: it finds a byte ff when there is one, and only then.
  lemma HasFFExact(p: seq<byte>)
    requires |p| == 8
    ensures HasFF(p) <==> 255 in p
  {
    FFInWord(Bv(p[0]), Bv(p[1]), Bv(p[2]), Bv(p[3]), Bv(p[4]), Bv(p[5]), Bv(p[6]), Bv(p[7]));
    assert p == [p[0], p[1], p[2], p[3], p[4], p[5], p[6], p[7]];
  }
}

// UUIDs as text and as numbers: the parsers of cjson/encoder.go and
// cjson/parse_uuid_fast_fallback.go and the formatter of cjson/creflect.go. The two
// 64-bit words are modelled by their sixteen bytes, the highest first.

module Uuid {
  import opened Wrappers
  import opened CTags
  import opened Varint
  import opened FFByte

  type Words = s: seq<byte> | |s| == 16 witness [0, 0, 0, 0, 0, 0, 0, 0, 0, 0, 0, 0, 0, 0, 0, 0]

  function Zeros(): Words { seq(16, _ => 0) }

  const DASH: byte := 45

  // hexCharToUint
  function HexVal(c: byte): (v: byte)
    ensures v < 16 || v == 255
  {
    if 48 <= c <= 57 then c - 48 else if 65 <= c <= 70 then c - 55 else if 97 <= c <= 102 then c - 87 else 255
  }

  // hexChars
  function HexChar(v: nat): byte
    requires v < 16
  {
    if v < 10 then 48 + v else 87 + v
  }

  // ---- positions ----

  predicate DashesOk(str: seq<byte>) {
    |str| == 36 && str[8] == DASH && str[13] == DASH && str[18] == DASH && str[23] == DASH
  }

  // Where digit k stands in a text of the given length, 32 or 36.
  function Pos(len: nat, k: nat): nat {
    if len == 32 || k < 8 then k else if k < 12 then k + 1 else if k < 16 then k + 2 else if k < 20 then k + 3 else k + 4
  }

  function Digit(str: seq<byte>, k: nat): byte
    requires |str| in {32, 36} && k < 32
  {
    str[Pos(|str|, k)]
  }

  // ---- parseUuidSlow ----

  datatype Error = BadFormat | BadChar(c: byte) | BadLength | Variant0

  // The first digit from k on that is none.
  function FirstBad(str: seq<byte>, k: nat): Option<byte>
    requires |str| in {32, 36} && k <= 32
    decreases 32 - k
  {
    if k == 32 then None else if HexVal(Digit(str, k)) > 15 then Some(Digit(str, k)) else FirstBad(str, k + 1)
  }

  // |= of digit k, shifted to its place in the words
  function PutNibble(res: Words, k: nat, num: byte): Words
    requires k < 32 && num < 16 && (k % 2 == 1 ==> res[k / 2] % 16 == 0)
  {
    NibbleFits(res[k / 2] / 16, num);
    res[k / 2 := if k % 2 == 0 then num * 16 else Or(num, res[k / 2])]
  }

  lemma NibbleFits(hi: nat, lo: nat)
    requires hi < 16 && lo < 16
    ensures Or(lo, hi * 16) == hi * 16 + lo
  {
    assert Pow2(4) == 16 by {
      assert Pow2(2) == 4;
    }
    OrDisjoint(lo, hi, 4);
  }

  // The steps of the slow parser from digit k on; each gives up at a character that is
  // no digit.
  function Nibbles(str: seq<byte>, k: nat, res: Words): (Words, Option<Error>)
    requires |str| in {32, 36} && k <= 32 && (k % 2 == 1 ==> res[k / 2] % 16 == 0)
    decreases 32 - k
  {
    if k == 32 then (res, None)
    else
      var num := HexVal(Digit(str, k));
      if num > 15 then (Zeros(), Some(if Digit(str, k) == DASH then BadFormat else BadChar(Digit(str, k))))
      else Nibbles(str, k + 1, PutNibble(res, k, num))
  }

  // The words when k digits are in.
  function FirstDigits(str: seq<byte>, k: nat): Words
    requires |str| in {32, 36} && k <= 32 && (forall i :: 0 <= i < k ==> HexVal(Digit(str, i)) < 16)
  {
    seq(16, j requires 0 <= j < 16 =>
      if 2 * j + 1 < k then Pair(Digit(str, 2 * j), Digit(str, 2 * j + 1))
      else if 2 * j < k then 16 * HexVal(Digit(str, 2 * j))
      else 0)
  }

  lemma NextDigit(str: seq<byte>, k: nat)
    requires |str| in {32, 36} && k < 32 && (forall i :: 0 <= i <= k ==> HexVal(Digit(str, i)) < 16)
    ensures FirstDigits(str, k + 1) == PutNibble(FirstDigits(str, k), k, HexVal(Digit(str, k)))
  {
    PutSums(FirstDigits(str, k), k, HexVal(Digit(str, k)));
    forall j | 0 <= j < 16 && j != k / 2 ensures FirstDigits(str, k + 1)[j] == FirstDigits(str, k)[j] {
      assert 2 * j + 1 < k <==> 2 * j + 1 < k + 1;
      assert 2 * j < k <==> 2 * j < k + 1;
    }
    SameButAt(FirstDigits(str, k + 1), FirstDigits(str, k), k / 2);
  }

  lemma SameButAt(v: Words, w: Words, i: nat)
    requires i < 16 && (forall j :: 0 <= j < 16 && j != i ==> v[j] == w[j])
    ensures v == w[i := v[i]]
  {
  }

  lemma PutSums(res: Words, k: nat, num: byte)
    requires k < 32 && num < 16 && (k % 2 == 1 ==> res[k / 2] % 16 == 0)
    ensures PutNibble(res, k, num) == res[k / 2 := if k % 2 == 0 then num * 16 else res[k / 2] + num]
  {
    NibbleFits(res[k / 2] / 16, num);
  }

  // The 32 steps put together what the pairs of digits are, and stop at the first bad one.
  lemma {:induction false} NibblesAreWords(str: seq<byte>, k: nat)
    requires |str| in {32, 36} && k <= 32 && (forall i :: 0 <= i < k ==> HexVal(Digit(str, i)) < 16)
    ensures Nibbles(str, k, FirstDigits(str, k)) ==
      match FirstBad(str, k)
      case Some(c) => (Zeros(), Some(if c == DASH then BadFormat else BadChar(c)))
      case None => (WordsOf(str), None)
    decreases 32 - k
  {
    if k == 32 {
      assert FirstDigits(str, 32) == WordsOf(str);
    } else if HexVal(Digit(str, k)) < 16 {
      NextDigit(str, k);
      NibblesAreWords(str, k + 1);
    }
  }

  // Two digits as a byte, or 255 when one of them is none.
  function Pair(hi: byte, lo: byte): byte {
    if HexVal(hi) > 15 || HexVal(lo) > 15 then 255 else 16 * HexVal(hi) + HexVal(lo)
  }

  function WordsOf(str: seq<byte>): Words
    requires |str| in {32, 36}
  {
    seq(16, j requires 0 <= j < 16 => Pair(Digit(str, 2 * j), Digit(str, 2 * j + 1)))
  }

  lemma {:induction false} NoneBad(str: seq<byte>, k: nat, i: nat)
    requires |str| in {32, 36} && k <= i < 32 && FirstBad(str, k).None?
    ensures HexVal(Digit(str, i)) < 16
    decreases i - k
  {
    if k < i {
      NoneBad(str, k + 1, i);
    }
  }

  lemma {:induction false} SomeBad(str: seq<byte>, k: nat) returns (i: nat)
    requires |str| in {32, 36} && k <= 32 && FirstBad(str, k).Some?
    ensures k <= i < 32 && HexVal(Digit(str, i)) > 15
    decreases 32 - k
  {
    if HexVal(Digit(str, k)) > 15 {
      i := k;
    } else {
      i := SomeBad(str, k + 1);
    }
  }

  predicate WrongVariant(w: Words) { w != Zeros() && w[8] < 128 }

  function ParseUuidSlow(str: seq<byte>): (Words, Option<Error>) {
    if |str| == 0 then (Zeros(), None)
    else if |str| != 32 && |str| != 36 then (Zeros(), Some(BadLength))
    else if |str| == 36 && !DashesOk(str) then (Zeros(), Some(BadFormat))
    else
      var (res, err) := Nibbles(str, 0, Zeros());
      if err.None? && WrongVariant(res) then (res, Some(Variant0)) else (res, err)
  }

  lemma SlowByPairs(str: seq<byte>)
    requires |str| == 32 || (|str| == 36 && DashesOk(str))
    ensures ParseUuidSlow(str) ==
      match FirstBad(str, 0)
      case Some(c) => (Zeros(), Some(if c == DASH then BadFormat else BadChar(c)))
      case None => (WordsOf(str), if WrongVariant(WordsOf(str)) then Some(Variant0) else None)
  {
    assert FirstDigits(str, 0) == Zeros();
    NibblesAreWords(str, 0);
  }

  // ---- the table of digit pairs and the fast parser ----

  // uuidHexPairToByte, filled by its two loops
  method PairTable() returns (table: array<byte>)
    ensures table.Length == 0x1_0000 && fresh(table)
    ensures forall hi, lo :: 0 <= hi < 256 && 0 <= lo < 256 ==> table[hi * 256 + lo] == Pair(hi, lo)
  {
    table := new byte[0x1_0000](_ => 255);
    var hi := 0;
    while hi < 256
      invariant 0 <= hi <= 256 && table.Length == 0x1_0000
      invariant forall h, l :: 0 <= h < hi && 0 <= l < 256 ==> table[h * 256 + l] == Pair(h, l)
      invariant forall k :: hi * 256 <= k < 0x1_0000 ==> table[k] == 255
    {
      if HexVal(hi) <= 15 {
        var lo := 0;
        while lo < 256
          invariant 0 <= lo <= 256
          invariant forall h, l :: 0 <= h < hi && 0 <= l < 256 ==> table[h * 256 + l] == Pair(h, l)
          invariant forall l :: 0 <= l < lo ==> table[hi * 256 + l] == Pair(hi, l)
          invariant forall k :: hi * 256 + lo <= k < 0x1_0000 ==> table[k] == 255
        {
          if HexVal(lo) <= 15 {
            table[hi * 256 + lo] := HexVal(hi) * 16 + HexVal(lo);
          }
          lo := lo + 1;
        }
      }
      hi := hi + 1;
    }
  }

  function ParseUuidFast(str: seq<byte>): (Words, bool) {
    if |str| == 0 then (Zeros(), true)
    else if |str| != 32 && |str| != 36 then (Zeros(), false)
    else if |str| == 36 && !DashesOk(str) then (Zeros(), false)
    else
      var w := WordsOf(str);
      (w, !HasFF(w[..8]) && !HasFF(w[8..]) && !WrongVariant(w))
  }

  function ParseUuid(str: seq<byte>): (Words, Option<Error>) {
    var (res, ok) := ParseUuidFast(str);
    if ok then (res, None) else ParseUuidSlow(str)
  }

  lemma NoFF(w: Words)
    requires !HasFF(w[..8]) && !HasFF(w[8..])
    ensures forall j :: 0 <= j < 16 ==> w[j] != 255
  {
    HasFFExact(w[..8]);
    HasFFExact(w[8..]);
    forall j | 0 <= j < 16 ensures w[j] != 255 {
      if j < 8 { assert w[j] == w[..8][j]; } else { assert w[j] == w[8..][j - 8]; }
    }
  }

  // For every text the parser with the fast path gives the result and the error of the
  // slow parser alone.
  lemma FastAgrees(str: seq<byte>)
    ensures ParseUuid(str) == ParseUuidSlow(str)
  {
    if ParseUuidFast(str).1 && |str| > 0 {
      SlowByPairs(str);
      NoFF(WordsOf(str));
      if FirstBad(str, 0).Some? {
        BadShows(str);
      }
    }
  }

  lemma BadShows(str: seq<byte>)
    requires |str| in {32, 36} && FirstBad(str, 0).Some?
    ensures exists j :: 0 <= j < 16 && WordsOf(str)[j] == 255
  {
    var i := SomeBad(str, 0);
    var j := i / 2;
    assert i == 2 * j || i == 2 * j + 1;
    assert WordsOf(str)[j] == Pair(Digit(str, 2 * j), Digit(str, 2 * j + 1));
  }

  // ---- createUuid ----

  function HexOf(b: byte, low: bool): byte { HexChar(if low then b % 16 else b / 16) }

  // The digits of a UUID in order.
  function DigitOf(w: Words, k: nat): byte
    requires k < 32
  {
    HexOf(w[k / 2], k % 2 == 1)
  }

  // Which digit stands at a place of the text of 36, None for a dash.
  function Place(i: nat): Option<nat>
    requires i < 36
  {
    if i in {8, 13, 18, 23} then None
    else Some(if i < 8 then i else if i < 13 then i - 1 else if i < 18 then i - 2 else if i < 23 then i - 3 else i - 4)
  }

  function Format(w: Words): seq<byte> {
    seq(36, i requires 0 <= i < 36 => if Place(i).None? then DASH else DigitOf(w, Place(i).value))
  }

  // putUuidHexByte of byte j; everything before pos is in place already
  method PutHexByte(buf: array<byte>, pos: nat, b: byte, ghost w: Words, ghost j: nat)
    requires buf.Length == 36 && pos + 1 < 36 && buf[..pos] == Format(w)[..pos]
    requires j < 16 && b == w[j] && Place(pos) == Some(2 * j) && Place(pos + 1) == Some(2 * j + 1)
    modifies buf
    ensures buf[..pos + 2] == Format(w)[..pos + 2]
  {
    ghost var before := buf[..pos];
    FormatPair(w, pos, j);
    buf[pos] := HexOf(b, false);
    buf[pos + 1] := HexOf(b, true);
    assert buf[..pos + 2] == before + [HexOf(b, false), HexOf(b, true)];
  }

  lemma FormatPair(w: Words, pos: nat, j: nat)
    requires pos + 1 < 36 && j < 16 && Place(pos) == Some(2 * j) && Place(pos + 1) == Some(2 * j + 1)
    ensures Format(w)[..pos + 2] == Format(w)[..pos] + [HexOf(w[j], false), HexOf(w[j], true)]
  {
    Halves(j);
    assert Format(w)[pos] == HexOf(w[j], false) && Format(w)[pos + 1] == HexOf(w[j], true);
  }

  lemma Halves(j: nat)
    ensures 2 * j / 2 == j && 2 * j % 2 == 0 && (2 * j + 1) / 2 == j && (2 * j + 1) % 2 == 1
  {
  }

  method PutDash(buf: array<byte>, pos: nat, ghost w: Words)
    requires buf.Length == 36 && pos in {8, 13, 18, 23} && buf[..pos] == Format(w)[..pos]
    modifies buf
    ensures buf[..pos + 1] == Format(w)[..pos + 1]
  {
    buf[pos] := DASH;
  }

  // createUuid, the first word
  method FirstWord(buf: array<byte>, w: Words)
    requires buf.Length == 36
    modifies buf
    ensures buf[..19] == Format(w)[..19]
  {
    PutHexByte(buf, 0, w[0], w, 0);
    PutHexByte(buf, 2, w[1], w, 1);
    PutHexByte(buf, 4, w[2], w, 2);
    PutHexByte(buf, 6, w[3], w, 3);
    PutDash(buf, 8, w);
    PutHexByte(buf, 9, w[4], w, 4);
    PutHexByte(buf, 11, w[5], w, 5);
    PutDash(buf, 13, w);
    PutHexByte(buf, 14, w[6], w, 6);
    PutHexByte(buf, 16, w[7], w, 7);
    PutDash(buf, 18, w);
  }

  // and the second
  method SecondWord(buf: array<byte>, w: Words)
    requires buf.Length == 36 && buf[..19] == Format(w)[..19]
    modifies buf
    ensures buf[..36] == Format(w)[..36]
  {
    PutHexByte(buf, 19, w[8], w, 8);
    PutHexByte(buf, 21, w[9], w, 9);
    PutDash(buf, 23, w);
    PutHexByte(buf, 24, w[10], w, 10);
    PutHexByte(buf, 26, w[11], w, 11);
    PutHexByte(buf, 28, w[12], w, 12);
    PutHexByte(buf, 30, w[13], w, 13);
    PutHexByte(buf, 32, w[14], w, 14);
    PutHexByte(buf, 34, w[15], w, 15);
  }

  method CreateUuid(w: Words) returns (s: seq<byte>)
    ensures s == Format(w)
  {
    var buf := new byte[36](_ => 0);
    FirstWord(buf, w);
    SecondWord(buf, w);
    s := buf[..];
    assert s == buf[..36] && Format(w)[..36] == Format(w);
  }

  // ---- there and back ----

  lemma FormatDigit(w: Words, k: nat)
    requires k < 32
    ensures DashesOk(Format(w)) && Digit(Format(w), k) == DigitOf(w, k)
    ensures HexVal(DigitOf(w, k)) == if k % 2 == 1 then w[k / 2] % 16 else w[k / 2] / 16
  {
  }

  lemma {:induction false} FormatGood(w: Words, k: nat)
    requires k <= 32
    ensures FirstBad(Format(w), k) == None
    decreases 32 - k
  {
    if k < 32 {
      FormatDigit(w, k);
      FormatGood(w, k + 1);
    }
  }

  lemma FormatWords(w: Words)
    ensures DashesOk(Format(w)) && WordsOf(Format(w)) == w
  {
    forall j | 0 <= j < 16 ensures WordsOf(Format(w))[j] == w[j] {
      FormatDigit(w, 2 * j);
      FormatDigit(w, 2 * j + 1);
    }
    FormatDigit(w, 0);
  }

  // Formatting and parsing gives the number back, without an error exactly when it is
  // zero or has its top variant bit set.
  lemma FormatThenParse(w: Words)
    ensures ParseUuid(Format(w)).0 == w
    ensures ParseUuid(Format(w)).1 == None <==> w == Zeros() || w[8] >= 128
  {
    FastAgrees(Format(w));
    FormatWords(w);
    FormatGood(w, 0);
    SlowByPairs(Format(w));
  }

  function Lower(c: byte): byte { if 65 <= c <= 70 then c + 32 else c }

  // The canonical form of a text: its digits in lower case, with the dashes.
  function Canonical(str: seq<byte>): seq<byte>
    requires |str| in {32, 36}
  {
    seq(36, i requires 0 <= i < 36 => if Place(i).None? then DASH else Lower(Digit(str, Place(i).value)))
  }

  lemma LowerDigit(c: byte)
    requires HexVal(c) < 16
    ensures HexChar(HexVal(c)) == Lower(c)
  {
  }

  lemma WordsDigit(str: seq<byte>, j: nat)
    requires |str| in {32, 36} && FirstBad(str, 0).None? && j < 16
    ensures DigitOf(WordsOf(str), 2 * j) == Lower(Digit(str, 2 * j))
    ensures DigitOf(WordsOf(str), 2 * j + 1) == Lower(Digit(str, 2 * j + 1))
  {
    NoneBad(str, 0, 2 * j);
    NoneBad(str, 0, 2 * j + 1);
    PairHex(Digit(str, 2 * j), Digit(str, 2 * j + 1));
    Halves(j);
  }

  lemma PairHex(hi: byte, lo: byte)
    requires HexVal(hi) < 16 && HexVal(lo) < 16
    ensures HexOf(Pair(hi, lo), false) == Lower(hi) && HexOf(Pair(hi, lo), true) == Lower(lo)
  {
    LowerDigit(hi);
    LowerDigit(lo);
  }

  lemma FormatOfWords(str: seq<byte>)
    requires |str| in {32, 36} && FirstBad(str, 0).None?
    ensures Format(WordsOf(str)) == Canonical(str)
  {
    forall i: nat | i < 36 ensures Format(WordsOf(str))[i] == Canonical(str)[i] {
      if Place(i).Some? {
        var k := Place(i).value;
        WordsDigit(str, k / 2);
        assert k == 2 * (k / 2) || k == 2 * (k / 2) + 1;
      }
    }
  }

  lemma SlowSucceeds(str: seq<byte>)
    requires str != [] && ParseUuidSlow(str).1.None?
    ensures |str| in {32, 36} && FirstBad(str, 0).None? && ParseUuidSlow(str).0 == WordsOf(str)
  {
    SlowByPairs(str);
  }

  // Parsing a valid text and formatting gives its canonical form.
  lemma ParseThenFormat(str: seq<byte>)
    requires str != [] && ParseUuid(str).1.None?
    ensures |str| in {32, 36} && Format(ParseUuid(str).0) == Canonical(str)
  {
    FastAgrees(str);
    SlowSucceeds(str);
    FormatOfWords(str);
  }
}
