// The packed tags of cjson/ctag.go, on unsigned numbers.

module CTags {
  // |
  function Or(a: nat, b: nat): nat
    decreases a + b
  {
    if a == 0 then b else if b == 0 then a
    else 2 * Or(a / 2, b / 2) + (if a % 2 == 1 || b % 2 == 1 then 1 else 0)
  }

  function Pow2(k: nat): nat { if k == 0 then 1 else 2 * Pow2(k - 1) }

  lemma {:induction false} OrDisjoint(a: nat, b: nat, k: nat)
    requires a < Pow2(k)
    ensures Or(a, b * Pow2(k)) == a + b * Pow2(k)
  {
    if a > 0 && b > 0 {
      var p := Pow2(k - 1);
      assert b * Pow2(k) == 2 * (b * p);
      assert b * p > 0 by { Positive(b, k - 1); }
      OrDisjoint(a / 2, b, k - 1);
    }
  }

  lemma {:induction false} Positive(b: nat, k: nat)
    requires b > 0
    ensures b * Pow2(k) > 0
  {
    if k > 0 {
      Positive(b, k - 1);
      assert b * Pow2(k) == 2 * (b * Pow2(k - 1));
    }
  }

  const VARINT: nat := 0
  const DOUBLE: nat := 1
  const STRING: nat := 2
  const BOOL: nat := 3
  const NULL: nat := 4
  const ARRAY: nat := 5
  const OBJECT: nat := 6
  const END: nat := 7
  const UUID: nat := 8
  const FLOAT: nat := 9

  // ctag(x) keeps 32 bits
  function MkCTag(ty: nat, name: nat, field: nat): nat {
    Or(Or(Or(ty % 8, name * 8), field * 0x8000), (ty / 8 % 8) * 0x2000_0000) % 0x1_0000_0000
  }

  function Name(c: nat): nat { c / 8 % 0x1000 }

  function Type(c: nat): nat { c % 8 + c / 0x2000_0000 % 8 * 8 }

  function FieldOf(c: nat): int { c / 0x8000 % 0x400 - 1 }

  lemma Or3(a: nat, b: nat)
    requires a < 8
    ensures Or(a, b * 8) == a + b * 8
  {
    Powers();
    OrDisjoint(a, b, 3);
  }

  lemma Or15(a: nat, b: nat)
    requires a < 0x8000
    ensures Or(a, b * 0x8000) == a + b * 0x8000
  {
    Powers();
    OrDisjoint(a, b, 15);
  }

  lemma Or24(a: nat, b: nat)
    requires a < 0x100_0000
    ensures Or(a, b * 0x100_0000) == a + b * 0x100_0000
  {
    Powers();
    OrDisjoint(a, b, 24);
  }

  lemma Or29(a: nat, b: nat)
    requires a < 0x2000_0000
    ensures Or(a, b * 0x2000_0000) == a + b * 0x2000_0000
  {
    Powers();
    OrDisjoint(a, b, 29);
  }

  lemma Packed(ty: nat, name: nat, field: nat)
    requires ty < 64 && name < 0x1000 && field < 0x400
    ensures MkCTag(ty, name, field) == ty % 8 + 8 * name + 0x8000 * field + 0x2000_0000 * (ty / 8)
  {
    var lo, hi := ty % 8, ty / 8;
    assert hi % 8 == hi;
    Or3(lo, name);
    Or15(lo + name * 8, field);
    Or29(lo + name * 8 + field * 0x8000, hi);
  }

  lemma Unpacked(lo: nat, name: nat, field: nat, hi: nat)
    requires lo < 8 && name < 0x1000 && field < 0x400 && hi < 8
    ensures var c := lo + 8 * name + 0x8000 * field + 0x2000_0000 * hi;
      Type(c) == lo + hi * 8 && Name(c) == name && FieldOf(c) == field - 1
  {
    var c := lo + 8 * name + 0x8000 * field + 0x2000_0000 * hi;
    assert c / 8 == name + 0x1000 * (field + 0x4000 * hi);
    assert c / 0x8000 == field + 0x400 * (0x10 * hi);
    assert c / 0x2000_0000 == hi;
  }

  // A tag gives back what was put into it.
  lemma CTagFields(ty: nat, name: nat, field: nat)
    requires ty < 64 && name < 0x1000 && field < 0x400
    ensures var c := MkCTag(ty, name, field);
      Type(c) == ty && Name(c) == name && FieldOf(c) == field - 1 && c < 0x1_0000_0000
  {
    Packed(ty, name, field);
    Unpacked(ty % 8, name, field, ty / 8);
  }

  lemma Powers()
    ensures Pow2(3) == 8 && Pow2(15) == 0x8000 && Pow2(24) == 0x100_0000 && Pow2(29) == 0x2000_0000
  {
    assert Pow2(12) == 0x1000;
    assert Pow2(20) == 0x10_0000;
  }

  lemma NoField(ty: nat, name: nat)
    requires ty < 8
    ensures MkCTag(ty, name, 0) == (ty + 8 * name) % 0x1_0000_0000
  {
    Or3(ty, name);
    assert ty % 8 == ty && ty / 8 == 0;
  }

  lemma DropHigh(x: nat, q: nat)
    requires x < 0x1_0000_0000
    ensures (0x1_0000_0000 * q + x) % 0x1_0000_0000 == x
  {
  }

  lemma LowBits(lo: nat, name: nat)
    requires lo < 8
    ensures (lo + 8 * name) % 0x1_0000_0000 / 8 % 0x1000 == name % 0x1000
  {
    var q, r := name / 0x2000_0000, name % 0x2000_0000;
    DropHigh(lo + 8 * r, q);
    assert (lo + 8 * r) / 8 == r;
    assert name == 0x1000 * (q * 0x2_0000) + r;
  }

  // The encoder's tags carry no field: the name then comes back exactly when it has 12 bits.
  lemma NameComesBack(ty: nat, name: nat)
    requires ty < 8
    ensures Name(MkCTag(ty, name, 0)) == name <==> name < 0x1000
  {
    NoField(ty, name);
    LowBits(ty, name);
  }

  function MkCArrayTag(count: nat, tag: nat): nat { Or(count, tag * 0x100_0000) % 0x1_0000_0000 }

  function Count(t: nat): nat { t % 0x100_0000 }

  function ElemTag(t: nat): nat { t / 0x100_0000 }

  lemma PackedArray(count: nat, tag: nat)
    requires tag < 256 && count < 0x100_0000
    ensures MkCArrayTag(count, tag) == count + 0x100_0000 * tag
  {
    Or24(count, tag);
    DropHigh(count + 0x100_0000 * tag, 0);
  }

  lemma CArrayTagFields(count: nat, tag: nat)
    requires tag < 256 && count < 0x100_0000
    ensures Count(MkCArrayTag(count, tag)) == count && ElemTag(MkCArrayTag(count, tag)) == tag
    ensures MkCArrayTag(count, tag) < 0x1_0000_0000
  {
    PackedArray(count, tag);
  }
}
