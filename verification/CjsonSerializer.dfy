// cjson.Serializer: a growing byte buffer with a read position.

module CjsonSerializer {
  import opened Varint
  import opened CTags
  import opened CjsonWire
  import opened GoTypes

  // The end tag and an offset.
  function Header(n: nat): (s: seq<byte>)
    ensures |s| == 5
  {
    [END] + LE(n, 4)
  }

  // `arr` is the memory behind the slice s.buf, `len` the slice's length.
  class Serializer {
    var arr: array<byte>
    var len: nat
    var pos: int

    ghost predicate Valid()
      reads this
    {
      len <= arr.Length
    }

    ghost function Contents(): seq<byte>
      requires Valid()
      reads this, arr
    {
      arr[..len]
    }

    // What is still to be read.
    ghost function Rest(): seq<byte>
      requires Valid() && 0 <= pos <= len
      reads this, arr
    {
      arr[pos..len]
    }

    constructor (bytes: seq<byte>)
      ensures Valid() && Contents() == bytes && pos == 0 && fresh(arr)
    {
      arr := new byte[|bytes|](i requires 0 <= i < |bytes| => bytes[i]);
      len := |bytes|;
      pos := 0;
    }

    // ---- writing ----

    method Reserve(sz: nat)
      requires Valid()
      modifies this
      ensures Valid() && Contents() == old(Contents()) && len == old(len) && pos == old(pos)
      ensures len + sz <= arr.Length && (arr == old(arr) || fresh(arr))
    {
      if len + sz > arr.Length {
        var b := new byte[arr.Length * 2 + sz + 1024];
        forall i | 0 <= i < len {
          b[i] := arr[i];
        }
        assert b[..len] == arr[..len];
        arr := b;
      }
    }

    // The slice gets sz bytes longer; what they hold is whatever was there.
    method Grow(sz: nat)
      requires Valid()
      modifies this
      ensures Valid() && len == old(len) + sz && pos == old(pos)
      ensures Contents()[..old(len)] == old(Contents()) && (arr == old(arr) || fresh(arr))
    {
      Reserve(sz);
      len := len + sz;
    }

    method Truncate(n: nat)
      requires Valid() && n <= len
      modifies this
      ensures Valid() && Contents() == old(Contents())[..n] && arr == old(arr) && pos == old(pos)
    {
      len := n;
    }

    // copy(s.buf[at:], bytes)
    method Copy(at: nat, bytes: seq<byte>)
      requires Valid() && at + |bytes| <= len
      modifies arr
      ensures Contents() == old(Contents())[..at] + bytes + old(Contents())[at + |bytes|..]
    {
      forall i | 0 <= i < |bytes| {
        arr[at + i] := bytes[i];
      }
    }

    method Write(bytes: seq<byte>)
      requires Valid()
      modifies this, arr
      ensures Valid() && Contents() == old(Contents()) + bytes
      ensures (arr == old(arr) || fresh(arr)) && pos == old(pos)
    {
      var l := len;
      Grow(|bytes|);
      Copy(l, bytes);
      assert Contents()[..l] == old(Contents());
    }

    // Encode's frame: five bytes in front of what follows `at`, moved up in place; they
    // hold the end tag and the length from `at` on.
    method Frame(at: nat)
      requires Valid() && at <= len
      modifies this, arr
      ensures Valid() && pos == old(pos) && (arr == old(arr) || fresh(arr))
      ensures Contents() == old(Contents())[..at] + Header(old(len) - at + 5) + old(Contents())[at..]
    {
      var n := len;
      Grow(5);
      MoveUp(at, n);
      ghost var moved := Contents();
      Copy(at, Header(len - at));
      assert moved[at + 5..] == old(Contents())[at..];
    }

    // copy(s.buf[at+5:], s.buf[at:n]), which copes with the overlap
    method MoveUp(at: nat, n: nat)
      requires Valid() && at <= n && n + 5 == len
      modifies arr
      ensures Contents()[..at] == old(Contents())[..at] && Contents()[at + 5..] == old(Contents())[at..n]
    {
      forall i | at <= i < n {
        arr[5 + i] := arr[i];
      }
    }

    // binary.PutUvarint(s.buf[at:], v)
    method PutUvarint(at: nat, v: nat) returns (n: nat)
      requires Valid() && v < 0x1_0000_0000_0000_0000 && at + 10 <= len
      modifies arr
      ensures n <= 10 && Contents()[..at + n] == old(Contents())[..at] + Bytes(v)
    {
      var x := v;
      n := 0;
      ghost var left := 10;
      ghost var done: seq<byte> := [];
      BelowTen(v);
      while x >= 128
        invariant 0 < left && n + left == 10 && Below(x, left) && |done| == n
        invariant Contents()[..at + n] == old(Contents())[..at] + done
        invariant done + Bytes(x) == Bytes(v)
        decreases x
      {
        SetByte(at + n, x % 128 + 128);
        Carry(done, x);
        done := done + [x % 128 + 128];
        x := x / 128;
        n := n + 1;
        left := left - 1;
      }
      SetByte(at + n, x);
      n := n + 1;
      Assoc(old(Contents())[..at], done, [x]);
    }

    method SetByte(i: nat, b: byte)
      requires Valid() && i < len
      modifies arr
      ensures Contents()[..i + 1] == old(Contents())[..i] + [b]
    {
      arr[i] := b;
      assert Contents()[..i] == old(Contents())[..i];
    }

    method PutVarUInt(v: nat)
      requires Valid() && v < 0x1_0000_0000_0000_0000
      modifies this, arr
      ensures Valid() && Contents() == old(Contents()) + Bytes(v)
      ensures (arr == old(arr) || fresh(arr)) && pos == old(pos)
    {
      if v < 0x80 {
        Write([v]);
      } else if v < 0x4000 {
        assert Bytes(v) == [v % 128 + 128, v / 128];
        Write([v % 128 + 128, v / 128]);
      } else if v < 0x20_0000 {
        assert v / 128 / 128 == v / 0x4000;
        assert Bytes(v / 128) == [v / 128 % 128 + 128, v / 0x4000];
        assert Bytes(v) == [v % 128 + 128, v / 128 % 128 + 128, v / 0x4000];
        Write([v % 128 + 128, v / 128 % 128 + 128, v / 0x4000]);
      } else {
        var l := len;
        Grow(10);
        var n := PutUvarint(l, v);
        Truncate(l + n);
      }
    }

    method PutVarInt(v: int)
      requires Valid() && -0x8000_0000_0000_0000 <= v < 0x8000_0000_0000_0000
      modifies this, arr
      ensures Valid() && Contents() == old(Contents()) + Bytes(ZigZag(v))
      ensures (arr == old(arr) || fresh(arr)) && pos == old(pos)
    {
      PutVarUInt(ZigZag(v));
    }

    // PutUInt32, PutDouble, PutFloat32: k bytes, the lowest first
    method PutLE(v: nat, k: nat)
      requires Valid()
      modifies this, arr
      ensures Valid() && Contents() == old(Contents()) + LE(v, k)
      ensures (arr == old(arr) || fresh(arr)) && pos == old(pos)
    {
      Write(LE(v, k));
    }

    method PutVString(s: Text)
      requires Valid() && |s| < 0x1_0000_0000_0000_0000
      modifies this, arr
      ensures Valid() && Contents() == old(Contents()) + Bytes(|s|) + s
      ensures (arr == old(arr) || fresh(arr)) && pos == old(pos)
    {
      PutVarUInt(|s|);
      Write(s);
    }

    // ---- reading: `ok` is false where the code panics ----

    method GetVarUInt() returns (ok: bool, v: nat)
      requires Valid()
      modifies this`pos
      ensures ok <==> 0 <= old(pos) <= len
      ensures ok ==> v == Read(old(Rest())).0 && pos == old(pos) + Read(old(Rest())).1
      ensures ok && old(pos) <= pos <= len ==> Rest() == old(Rest())[pos - old(pos)..]
    {
      ok, v := 0 <= pos <= len, 0;
      if ok {
        ghost var rest := Rest();
        if pos < len {
          assert arr[pos] == rest[0];
          if arr[pos] < 0x80 {
            v := arr[pos];
            pos := pos + 1;
            return;
          }
        }
        var r := Read(arr[pos..len]);
        v := r.0;
        pos := pos + r.1;
      }
    }

    method GetVarInt() returns (ok: bool, v: int)
      requires Valid()
      modifies this`pos
      ensures ok <==> 0 <= old(pos) <= len
      ensures ok ==> v == UnZigZag(Read(old(Rest())).0) && pos == old(pos) + Read(old(Rest())).1
      ensures ok && old(pos) <= pos <= len ==> Rest() == old(Rest())[pos - old(pos)..]
    {
      ok, v := 0 <= pos <= len, 0;
      if ok {
        ghost var rest := Rest();
        if pos < len && arr[pos] < 0x80 {
          assert arr[pos] == rest[0];
          v := UnZigZag(arr[pos]);
          pos := pos + 1;
          return;
        }
        if pos + 1 < len {
          assert arr[pos] == rest[0] && arr[pos + 1] == rest[1];
          if arr[pos + 1] < 0x80 {
            ReadTwo(rest);
            v := UnZigZag(Two(arr[pos], arr[pos + 1]));
            pos := pos + 2;
            return;
          }
          if pos + 2 < len {
            assert arr[pos + 2] == rest[2];
            if arr[pos + 2] < 0x80 {
              ReadThree(rest);
              v := UnZigZag(Three(arr[pos], arr[pos + 1], arr[pos + 2]));
              pos := pos + 3;
              return;
            }
          }
        }
        var r := Read(arr[pos..len]);
        v := UnZigZag(r.0);
        pos := pos + r.1;
      }
    }

    // GetUInt32, GetDouble, GetFloat32
    method GetLE(k: nat) returns (ok: bool, v: nat)
      requires Valid()
      modifies this`pos
      ensures ok <==> 0 <= old(pos) && old(pos) + k <= len
      ensures ok ==> v == FromLE(old(Rest())[..k]) && pos == old(pos) + k
      ensures ok && old(pos) <= pos <= len ==> Rest() == old(Rest())[pos - old(pos)..]
      ensures !ok ==> pos == old(pos)
    {
      ok, v := 0 <= pos && pos + k <= len, 0;
      if ok {
        assert arr[pos..pos + k] == Rest()[..k];
        v := FromLE(arr[pos..pos + k]);
        pos := pos + k;
      }
    }

    method SkipVString() returns (ok: bool)
      requires Valid()
      modifies this`pos
      ensures ok ==> 0 <= old(pos) <= len && pos <= len
      ensures ok ==> pos == old(pos) + Read(old(Rest())).1 + ToInt64(Read(old(Rest())).0)
      ensures 0 <= old(pos) <= len && old(pos) + Read(old(Rest())).1 + ToInt64(Read(old(Rest())).0) <= len ==> ok
      ensures ok && old(pos) <= pos <= len ==> Rest() == old(Rest())[pos - old(pos)..]
    {
      var u: nat;
      ok, u := GetVarUInt();
      if ok {
        ok := pos + ToInt64(u) <= len;
        if ok {
          pos := pos + ToInt64(u);
        }
      }
    }

    // The next l bytes.
    method Take(l: nat) returns (ok: bool, s: seq<byte>)
      requires Valid() && 0 <= pos <= len
      modifies this`pos
      ensures 0 <= pos <= len && (ok <==> l <= |old(Rest())|)
      ensures ok ==> pos == old(pos) + l && s == old(Rest())[..l] && Rest() == old(Rest())[l..]
      ensures !ok ==> pos == old(pos) && s == []
    {
      s := [];
      ok := pos + l <= len;
      if ok {
        s := arr[pos..pos + l];
        assert arr[pos..pos + l] == arr[pos..len][..l];
        pos := pos + l;
      }
    }

    // The length in front of a string.
    method GetLength() returns (ok: bool, l: nat)
      requires Valid()
      modifies this`pos
      ensures ok ==> 0 <= old(pos) <= len && 0 <= pos <= len
      ensures 0 <= old(pos) <= len ==>
        var (u, n) := Read(old(Rest()));
        && ok == (0 <= old(pos) + n <= len && 0 <= ToInt64(u))
        && (ok ==> pos == old(pos) + n && l == ToInt64(u))
      ensures ok && old(pos) <= pos ==> Rest() == old(Rest())[pos - old(pos)..]
    {
      l := 0;
      var u: nat;
      ok, u := GetVarUInt();
      if ok {
        var i := ToInt64(u);
        ok := 0 <= pos <= len && 0 <= i;
        l := if ok then i else 0;
      }
    }

    method GetVString() returns (ok: bool, s: Text)
      requires Valid()
      modifies this`pos
      ensures ok ==> 0 <= old(pos) <= len && 0 <= pos <= len
      ensures 0 <= old(pos) <= len ==>
        var (u, n) := Read(old(Rest()));
        var from, to := old(pos) + n, old(pos) + n + ToInt64(u);
        ok == (0 <= from <= to <= len) && (ok ==> pos == to && s == arr[from..to])
      ensures 0 <= old(pos) <= len ==>
        var (u, n) := Read(old(Rest()));
        0 <= n && u < 0x8000_0000_0000_0000 && n + u <= |old(Rest())| ==>
          ok && s == old(Rest())[n..][..u] && Rest() == old(Rest())[n..][u..]
    {
      s := [];
      var l: nat;
      ghost var p := pos;
      ok, l := GetLength();
      if ok {
        ghost var rest, from := Rest(), pos;
        var t;
        ok, t := Take(l);
        s := t;
        if ok {
          assert arr[from..pos] == rest[..l];
        }
      }
      if 0 <= p <= len { Wrapped(Read(old(Rest())).0); }
    }
  }

  lemma Wrapped(u: nat)
    ensures ToInt64(u) < 0x8000_0000_0000_0000
    ensures u < 0x8000_0000_0000_0000 ==> ToInt64(u) == u
  {
  }

  // Numbers below 128^k, without powers.
  ghost predicate Below(x: nat, k: nat) { k > 0 && (if k == 1 then x < 128 else Below(x / 128, k - 1)) }

  lemma Carry(done: seq<byte>, x: nat)
    requires x >= 128
    ensures done + [x % 128 + 128] + Bytes(x / 128) == done + Bytes(x)
  {
  }

  lemma BelowTen(v: nat)
    requires v < 0x1_0000_0000_0000_0000
    ensures Below(v, 10)
  {
    var a := v / 128 / 128 / 128;
    var b := a / 128 / 128 / 128;
    assert a < 0x800_0000_0000;
    assert b < 0x40_0000;
    assert b / 128 < 0x8000 && b / 128 / 128 < 0x100;
    assert Below(b / 128 / 128, 2);
    assert Below(b, 4);
    assert Below(a / 128, 6);
    assert Below(a, 7);
    assert Below(v / 128, 9);
  }

  // uint64(b0&0x7f) | uint64(b1)<<7, and with a third byte
  function Two(b0: nat, b1: nat): nat { b0 % 128 + b1 * 128 }

  function Three(b0: nat, b1: nat, b2: nat): nat { b0 % 128 + b1 % 128 * 128 + b2 * 0x4000 }

  lemma ReadTwo(s: seq<byte>)
    requires |s| >= 2 && s[0] >= 128 && s[1] < 128
    ensures Read(s) == (Two(s[0], s[1]), 2)
  {
    assert Pow128(1) == 128 * Pow128(0) == 128;
    assert Read(s) == ReadFrom(s, 1, s[0] % 128);
  }

  lemma ReadThree(s: seq<byte>)
    requires |s| >= 3 && s[0] >= 128 && s[1] >= 128 && s[2] < 128
    ensures Read(s) == (Three(s[0], s[1], s[2]), 3)
  {
    assert Pow128(1) == 128 * Pow128(0) == 128;
    assert Pow128(2) == 128 * Pow128(1) == 0x4000;
    assert Read(s) == ReadFrom(s, 1, s[0] % 128) == ReadFrom(s, 2, Two(s[0], s[1] % 128));
    assert ReadFrom(s, 2, Two(s[0], s[1] % 128)) == (Three(s[0], s[1], s[2]), 3);
  }
}
