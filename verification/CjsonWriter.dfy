// Scalars and arrays of scalars into a serializer.

module CjsonWriter {
  import opened Varint
  import opened CjsonWire
  import opened GoTypes
  import opened Floats
  import opened CjsonCodec
  import opened CjsonSerializer

  method WriteScalar(ser: Serializer, s: Scalar)
    requires ser.Valid() && ScalarFits(s)
    modifies ser, ser.arr
    ensures ser.Valid() && ser.Contents() == old(ser.Contents()) + ScalarBytes(s)
    ensures ser.arr == old(ser.arr) || fresh(ser.arr)
  {
    match s
    case SVar(i) => ser.PutVarInt(i);
    case SDouble(n) => ser.PutLE(n, 8);
    case SStr(t) =>
      ghost var before := ser.Contents();
      ser.PutVString(t);
      Assoc(before, Bytes(|t|), t);
    case SBool(n) => ser.PutVarUInt(n);
    case SFloat(n) => ser.PutLE(n, 4);
    case SUuid(hi, lo) =>
      ghost var before := ser.Contents();
      ser.PutLE(hi, 8);
      ser.PutLE(lo, 8);
      Assoc(before, LE(hi, 8), LE(lo, 8));
  }

  method WriteElem(ser: Serializer, e: Ty, fixed: bool, v: Value)
    requires ser.Valid() && IsScalar(e) && Covered(e) && HasType(e, v)
    modifies ser, ser.arr
    ensures ser.Valid() && ser.Contents() == old(ser.Contents()) + ScalarBytes(EncScalar(e, fixed, v))
    ensures ser.arr == old(ser.arr) || fresh(ser.arr)
  {
    if fixed && e.TInt? && !e.signed {
      UnZigZagInverse(v.i);
      ser.PutVarUInt(v.i);
    } else if fixed && e.TFloat32? {
      NarrowWiden(v.bits);
      ser.PutLE(Narrow(Widen(v.bits)).value, 4);
    } else {
      ElemFits(e, v, fixed);
      WriteScalar(ser, EncScalar(e, fixed, v));
    }
  }

  lemma ElemFits(e: Ty, v: Value, fixed: bool)
    requires IsScalar(e) && Covered(e) && HasType(e, v) && !(fixed && e.TInt? && !e.signed)
    ensures ScalarFits(EncScalar(e, fixed, v))
  {
    if e.TFloat32? {
      NarrowWiden(v.bits);
    }
  }

  method WriteScalars(ser: Serializer, e: Ty, fixed: bool, vs: seq<Value>)
    requires ser.Valid() && IsScalar(e) && Covered(e) && forall i :: 0 <= i < |vs| ==> HasType(e, vs[i])
    modifies ser, ser.arr
    ensures ser.Valid() && ser.Contents() == old(ser.Contents()) + ScalarsBytes(EncScalars(e, fixed, vs))
    ensures ser.arr == old(ser.arr) || fresh(ser.arr)
  {
    ghost var before, all := ser.Contents(), EncScalars(e, fixed, vs);
    var i := 0;
    while i < |vs|
      invariant i <= |vs| && ser.Valid()
      invariant ser.Contents() == before + ScalarsBytes(all[..i])
      invariant ser.arr == old(ser.arr) || fresh(ser.arr)
    {
      WriteElem(ser, e, fixed, vs[i]);
      ScalarsLast(before, all, i);
      i := i + 1;
    }
    assert all[..|all|] == all;
  }

  lemma UnZigZagInverse(u: nat)
    ensures ZigZag(UnZigZag(u)) == u
  {
  }

  lemma {:induction false} ScalarsConcat(xs: seq<Scalar>, ys: seq<Scalar>)
    ensures ScalarsBytes(xs + ys) == ScalarsBytes(xs) + ScalarsBytes(ys)
  {
    if xs == [] {
      assert xs + ys == ys;
    } else {
      assert (xs + ys)[1..] == xs[1..] + ys;
      ScalarsConcat(xs[1..], ys);
      Assoc(ScalarBytes(xs[0]), ScalarsBytes(xs[1..]), ScalarsBytes(ys));
    }
  }

  lemma ScalarsLast(before: seq<byte>, all: seq<Scalar>, i: nat)
    requires i < |all|
    ensures before + ScalarsBytes(all[..i]) + ScalarBytes(all[i]) == before + ScalarsBytes(all[..i + 1])
  {
    assert all[..i + 1] == all[..i] + [all[i]] && |[all[i]][1..]| == 0;
    ScalarsConcat(all[..i], [all[i]]);
    assert ScalarsBytes([all[i]]) == ScalarBytes(all[i]);
    Assoc(before, ScalarsBytes(all[..i]), ScalarBytes(all[i]));
  }
}
