// float32 in float64 and back, on bit patterns.

module Floats {
  import opened Wrappers

  // Sign, exponent field and fraction of a bit pattern, and the pattern they make.
  function Exp32(f: nat): nat { f / 0x80_0000 % 0x100 }
  function Frac32(f: nat): nat { f % 0x80_0000 }
  function Exp64(d: nat): nat { d / 0x10_0000_0000_0000 % 0x800 }
  function Frac64(d: nat): nat { d % 0x10_0000_0000_0000 }
  function Mk32(sign: nat, e: nat, m: nat): nat { sign * 0x8000_0000 + e * 0x80_0000 + m }
  function Mk64(sign: nat, e: nat, m: nat): nat { sign * 0x8000_0000_0000_0000 + e * 0x10_0000_0000_0000 + m }

  function Up(m: nat, n: nat): nat
    decreases n
  {
    if n == 0 then m else Up(2 * m, n - 1)
  }

  function Down(m: nat, n: nat): nat { if n == 0 then m else Down(m, n - 1) / 2 }

  // The shift that brings the highest bit of a fraction to place 23.
  function Lead(m: nat): (n: nat)
    requires 0 < m < 0x100_0000
    ensures 0x80_0000 <= Up(m, n) < 0x100_0000
    ensures m < 0x80_0000 ==> n > 0
    decreases 0x100_0000 - m
  {
    if m >= 0x80_0000 then 0 else 1 + Lead(2 * m)
  }

  lemma {:induction false} DownUp(m: nat, n: nat)
    ensures Down(Up(m, n), n) == m
    decreases n
  {
    if n > 0 {
      DownUp(2 * m, n - 1);
    }
  }

  lemma {:induction false} LeadBound(m: nat, k: nat)
    requires 0 < m < 0x100_0000 && Up(m, k) >= 0x80_0000
    ensures Lead(m) <= k
    decreases k
  {
    if m < 0x80_0000 {
      LeadBound(2 * m, k - 1);
    }
  }

  lemma UpBy23(m: nat)
    ensures Up(m, 23) == m * 0x80_0000
  {
    assert Up(m, 8) == m * 0x100;
    UpSplit(m, 8, 15);
    UpSplit(m * 0x100, 8, 7);
    assert Up(m * 0x100, 8) == m * 0x1_0000;
    assert Up(m * 0x1_0000, 7) == m * 0x80_0000;
  }

  lemma {:induction false} UpSplit(m: nat, j: nat, k: nat)
    ensures Up(m, j + k) == Up(Up(m, j), k)
    decreases j
  {
    if j > 0 {
      UpSplit(2 * m, j - 1, k);
    }
  }

  lemma LeadSmall(m: nat)
    requires 0 < m < 0x80_0000
    ensures 0 < Lead(m) <= 23
  {
    UpBy23(m);
    LeadBound(m, 23);
  }

  // A signaling NaN, which any conversion turns into the quiet one.
  predicate Signaling(f: nat) { Exp32(f) == 0xFF && 0 < Frac32(f) < 0x40_0000 }

  function Quiet(f: nat): nat { if Signaling(f) then f + 0x40_0000 else f }

  function Quieted(m: nat): nat { if 0 < m < 0x40_0000 then m + 0x40_0000 else m }

  // float64(f)
  function Widen(f: nat): (d: nat)
    requires f < 0x1_0000_0000
    ensures d < 0x1_0000_0000_0000_0000
  {
    WidenParts(f / 0x8000_0000, Exp32(f), Frac32(f))
  }

  function WidenParts(s: nat, e: nat, m: nat): (d: nat)
    requires s < 2 && e < 0x100 && m < 0x80_0000
    ensures d < 0x1_0000_0000_0000_0000
  {
    if e == 0xFF then Mk64(s, 0x7FF, Quieted(m) * 0x2000_0000)
    else if e > 0 then Mk64(s, e + 896, m * 0x2000_0000)
    else if m == 0 then Mk64(s, 0, 0)
    else
      LeadSmall(m);
      Mk64(s, 897 - Lead(m), (Up(m, Lead(m)) - 0x80_0000) * 0x2000_0000)
  }

  // float32(d), where d is a float32 or no number; None for the numbers Go has to round.
  function Narrow(d: nat): Option<nat>
    requires d < 0x1_0000_0000_0000_0000
  {
    var s, e, m := d / 0x8000_0000_0000_0000, Exp64(d), Frac64(d);
    if e == 0x7FF then
      var high := m / 0x2000_0000;
      Some(Mk32(s, 0xFF, if m == 0 then 0 else if high < 0x40_0000 then high + 0x40_0000 else high))
    else if m % 0x2000_0000 != 0 then None
    else if 897 <= e <= 1150 then Some(Mk32(s, e - 896, m / 0x2000_0000))
    else if e == 0 && m == 0 then Some(Mk32(s, 0, 0))
    else if 874 <= e < 897 then
      var sig := m / 0x2000_0000 + 0x80_0000;
      var low := Down(sig, 897 - e);
      if Up(low, 897 - e) == sig then Some(Mk32(s, 0, low)) else None
    else None
  }

  lemma Parts64(s: nat, e: nat, m: nat)
    requires s < 2 && e < 0x800 && m < 0x10_0000_0000_0000
    ensures var d := Mk64(s, e, m);
      d < 0x1_0000_0000_0000_0000 && d / 0x8000_0000_0000_0000 == s && Exp64(d) == e && Frac64(d) == m
  {
    var d := Mk64(s, e, m);
    assert d / 0x10_0000_0000_0000 == s * 0x800 + e;
  }

  lemma Parts32(f: nat)
    requires f < 0x1_0000_0000
    ensures f == Mk32(f / 0x8000_0000, Exp32(f), Frac32(f))
  {
    assert f / 0x80_0000 / 0x100 == f / 0x8000_0000;
  }

  lemma NarrowNormal(s: nat, e: nat, m: nat)
    requires s < 2 && 0 < e < 0x100 && m < 0x80_0000
    ensures Narrow(WidenParts(s, e, m)) == Some(Mk32(s, e, if e == 0xFF then Quieted(m) else m))
  {
    Parts64(s, if e == 0xFF then 0x7FF else e + 896, (if e == 0xFF then Quieted(m) else m) * 0x2000_0000);
  }

  // sig is m with its highest bit brought to place 23.
  lemma NarrowSmall(s: nat, n: nat, m: nat, sig: nat)
    requires s < 2 && 0 < n <= 23 && 0x80_0000 <= sig < 0x100_0000 && Down(sig, n) == m && Up(m, n) == sig
    ensures var d := Mk64(s, 897 - n, (sig - 0x80_0000) * 0x2000_0000);
      d < 0x1_0000_0000_0000_0000 && Narrow(d) == Some(Mk32(s, 0, m))
  {
    var low, e := sig - 0x80_0000, 897 - n;
    Parts64(s, e, low * 0x2000_0000);
    assert low * 0x2000_0000 / 0x2000_0000 == low && low * 0x2000_0000 % 0x2000_0000 == 0;
    assert 897 - e == n;
  }

  lemma NarrowSubnormal(s: nat, m: nat)
    requires s < 2 && m < 0x80_0000
    ensures Narrow(WidenParts(s, 0, m)) == Some(Mk32(s, 0, m))
  {
    if m == 0 {
      Parts64(s, 0, 0);
    } else {
      var n := Lead(m);
      LeadSmall(m);
      DownUp(m, n);
      NarrowSmall(s, n, m, Up(m, n));
    }
  }

  // Every float32, subnormals and infinities included, survives the trip through float64
  // but for the signaling NaNs, which come back quiet.
  lemma NarrowWiden(f: nat)
    requires f < 0x1_0000_0000
    ensures Narrow(Widen(f)) == Some(Quiet(f)) && Quiet(f) < 0x1_0000_0000
    ensures Narrow(Widen(f)) == Some(f) <==> !Signaling(f)
  {
    var s, e, m := f / 0x8000_0000, Exp32(f), Frac32(f);
    Parts32(f);
    if e > 0 {
      NarrowNormal(s, e, m);
    } else {
      NarrowSubnormal(s, m);
    }
  }
}
