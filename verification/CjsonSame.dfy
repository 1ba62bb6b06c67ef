// When decoding gives back the value that was encoded.

module CjsonSame {
  import opened Wrappers
  import opened Varint
  import opened CjsonWire
  import opened GoTypes
  import opened Floats
  import opened CjsonCodec
  import opened CjsonRoundTrip

  // A value with its nil slices and maps made empty: two values have the same content
  // when they are equal up to nil versus empty containers.
  function Content(ty: Ty, v: Value): Value
    decreases ty, 2
  {
    match ty
    case TSlice(e) => VList(ContentElems(e, Elems(v)))
    case TArray(_, e) => VList(ContentElems(e, Elems(v)))
    case TPtr(t) => if v.VPtr? then VPtr(Content(t, v.to)) else VNil
    case TMap(e) => VMap(ContentEntries(e, Entries(v)))
    case TStruct(fs) => if |Fields(v)| == |fs| then VStruct(ContentFields(ty, Fields(v), 0)) else v
    case _ => v
  }

  function ContentElems(e: Ty, vs: seq<Value>): (r: seq<Value>)
    ensures |r| == |vs|
    decreases e, 3, |vs|
  {
    if vs == [] then [] else [Content(e, vs[0])] + ContentElems(e, vs[1..])
  }

  function ContentEntries(e: Ty, entries: seq<(Text, Value)>): (r: seq<(Text, Value)>)
    ensures |r| == |entries|
    decreases e, 3, |entries|
  {
    if entries == [] then []
    else [(entries[0].0, Content(e, entries[0].1))] + ContentEntries(e, entries[1..])
  }

  function ContentFields(ty: Ty, vs: seq<Value>, i: nat): (r: seq<Value>)
    requires ty.TStruct? && |vs| == |ty.fields| && i <= |vs|
    ensures |r| == |vs| - i
    decreases ty, 1, |vs| - i
  {
    if i == |vs| then [] else [Content(ty.fields[i].ty, vs[i])] + ContentFields(ty, vs, i + 1)
  }

  // The values that come back with the same content once they are encoded. Lost are: a
  // pointer to an empty value under omitempty, the sign of a zero float under omitempty,
  // signaling NaNs of float32 other than in slices, map entries whose value is nil,
  // unsigned numbers in arrays of fixed size other than 0, fields the encoder passes over,
  // and embedded structs with a json tag; of the last two zero content comes back.
  predicate Kept(omit: bool, ty: Ty, v: Value)
    decreases ty, 3
  {
    if ty.TPtr? then v.VPtr? ==> EncIn(None, omit, ty.to, v.to) != [] && KeptIn(omit, ty.to, v.to)
    else KeptIn(omit, ty, v)
  }

  predicate KeptIn(omit: bool, ty: Ty, v: Value)
    decreases ty, 2
  {
    match ty
    case TFloat32 => v.VBits? ==> !(omit && v.bits == 0x8000_0000) && !Signaling(v.bits)
    case TFloat64 => !(omit && v == VBits(0x8000_0000_0000_0000))
    case TSlice(e) => KeptElems(e, false, Elems(v))
    case TArray(_, e) => KeptElems(e, true, Elems(v))
    case TMap(e) => KeptEntries(e, Entries(v))
    case TStruct(fs) => |Fields(v)| == |fs| ==> KeptFields(ty, Fields(v), 0)
    case _ => true
  }

  predicate KeptElems(e: Ty, fixed: bool, vs: seq<Value>)
    decreases e, 4, |vs|
  {
    vs == [] || (KeptElem(e, fixed, vs[0]) && KeptElems(e, fixed, vs[1..]))
  }

  predicate KeptElem(e: Ty, fixed: bool, v: Value)
    decreases e, 4, 0
  {
    if fixed && e.TInt? && !e.signed then v == VInt(0)
    else if !fixed && e.TFloat32? then true
    else Kept(false, e, v)
  }

  predicate KeptEntries(e: Ty, entries: seq<(Text, Value)>)
    decreases e, 4, |entries|
  {
    entries == [] ||
    (&& !(Nullable(e) && entries[0].1.VNil?) && Kept(false, e, entries[0].1) && KeptEntries(e, entries[1..]))
  }

  predicate KeptFields(ty: Ty, vs: seq<Value>, i: nat)
    requires ty.TStruct? && |vs| == |ty.fields| && i <= |vs|
    decreases ty, 1, |vs| - i
  {
    i == |vs| || (KeptField(ty.fields[i], vs[i]) && KeptFields(ty, vs, i + 1))
  }

  predicate KeptField(f: Field, v: Value)
    decreases f.ty, 4
  {
    if f.skip || (f.embedded && f.tagged && f.ty.TStruct?) then Content(f.ty, v) == Content(f.ty, Zero(f.ty))
    else if f.embedded && f.ty.TStruct? then KeptIn(false, f.ty, v)
    else Kept(f.omitEmpty, f.ty, v)
  }

  // ---- both directions ----

  lemma {:induction false} SameContent(omit: bool, ty: Ty, v: Value)
    requires Covered(ty) && HasType(ty, v)
    ensures Content(ty, Back(omit, ty, v)) == Content(ty, v) <==> Kept(omit, ty, v)
    decreases ty, 3
  {
    if ty.TPtr? {
      if v.VPtr? {
        SameContentIn(omit, ty.to, v.to);
      }
    } else {
      SameContentIn(omit, ty, v);
    }
  }

  lemma {:induction false} SameContentIn(omit: bool, ty: Ty, v: Value)
    requires Covered(ty) && HasType(ty, v) && !ty.TPtr?
    ensures Content(ty, BackIn(omit, ty, v)) == Content(ty, v) <==> KeptIn(omit, ty, v)
    decreases ty, 2
  {
    match ty
    case TSlice(e) => SameElems(e, false, Elems(v));
    case TArray(_, e) => SameElems(e, true, Elems(v));
    case TMap(e) => SameEntries(e, Entries(v));
    case TStruct(_) => SameStruct(omit, ty, v);
    case _ =>
  }

  lemma {:induction false} SameStruct(omit: bool, ty: Ty, v: Value)
    requires Covered(ty) && HasType(ty, v) && ty.TStruct?
    ensures Content(ty, BackIn(omit, ty, v)) == Content(ty, v) <==> KeptIn(omit, ty, v)
    decreases ty, 1, |ty.fields| + 1
  {
    var vs := v.fields;
    var bs := BackFields(ty, vs, 0);
    assert v == VStruct(vs) && Fields(v) == vs;
    BackFieldsAt(ty, vs, 0);
    SameFields(ty, bs, vs, 0);
    ContentOfStruct(ty, vs);
    ContentOfStruct(ty, bs);
    assert BackIn(omit, ty, v) == VStruct(bs);
  }

  lemma ContentOfStruct(ty: Ty, vs: seq<Value>)
    requires ty.TStruct? && |vs| == |ty.fields|
    ensures Content(ty, VStruct(vs)) == VStruct(ContentFields(ty, vs, 0))
  {
  }

  lemma Cons<T>(a: T, s: seq<T>, b: T, t: seq<T>)
    ensures [a] + s == [b] + t <==> a == b && s == t
  {
    if [a] + s == [b] + t {
      assert ([a] + s)[0] == ([b] + t)[0];
      assert ([a] + s)[1..] == s && ([b] + t)[1..] == t;
    }
  }

  lemma Unsigned(bits: nat, i: int)
    requires bits in {8, 16, 32, 64} && Wrap(bits, false, i) == i
    ensures Wrap(bits, false, UnZigZag(i)) == i <==> i == 0
  {
    var m := if bits == 8 then 0x100 else if bits == 16 then 0x1_0000 else if bits == 32 then 0x1_0000_0000
      else 0x1_0000_0000_0000_0000;
    assert 0 <= i < m && Wrap(bits, false, UnZigZag(i)) == UnZigZag(i) % m;
    if i % 2 == 0 {
      assert UnZigZag(i) % m == i / 2;
    } else {
      assert UnZigZag(i) % m == m - i / 2 - 1;
    }
  }

  lemma {:induction false} SameElems(e: Ty, fixed: bool, vs: seq<Value>)
    requires Covered(e) && forall i :: 0 <= i < |vs| ==> HasType(e, vs[i])
    ensures ContentElems(e, BackElems(e, fixed, vs)) == ContentElems(e, vs) <==> KeptElems(e, fixed, vs)
    decreases e, 4, |vs|
  {
    if vs != [] {
      if fixed && e.TInt? && !e.signed {
        Unsigned(e.bits, vs[0].i);
      } else if !fixed && e.TFloat32? {
      } else {
        SameContent(false, e, vs[0]);
      }
      SameElems(e, fixed, vs[1..]);
      var b := BackElem(e, fixed, vs[0]);
      assert BackElems(e, fixed, vs) == [b] + BackElems(e, fixed, vs[1..]);
      assert BackElems(e, fixed, vs)[1..] == BackElems(e, fixed, vs[1..]);
      Cons(Content(e, b), ContentElems(e, BackElems(e, fixed, vs[1..])), Content(e, vs[0]), ContentElems(e, vs[1..]));
    }
  }

  lemma {:induction false} BackNoLonger(e: Ty, entries: seq<(Text, Value)>)
    ensures |BackEntries(e, entries)| <= |entries|
  {
    if entries != [] {
      BackNoLonger(e, entries[1..]);
    }
  }

  lemma {:induction false} SameEntries(e: Ty, entries: seq<(Text, Value)>)
    requires Covered(e) && forall i :: 0 <= i < |entries| ==> HasType(e, entries[i].1)
    ensures ContentEntries(e, BackEntries(e, entries)) == ContentEntries(e, entries) <==> KeptEntries(e, entries)
    decreases e, 4, |entries|
  {
    if entries != [] {
      var key, v, rest := entries[0].0, entries[0].1, BackEntries(e, entries[1..]);
      if Nullable(e) && v.VNil? {
        BackNoLonger(e, entries[1..]);
        assert |ContentEntries(e, rest)| < |ContentEntries(e, entries)|;
      } else {
        SameContent(false, e, v);
        SameEntries(e, entries[1..]);
        var x := (key, Back(false, e, v));
        assert BackEntries(e, entries) == [x] + rest;
        assert BackEntries(e, entries)[1..] == rest;
        Cons((key, Content(e, x.1)), ContentEntries(e, rest), (key, Content(e, v)), ContentEntries(e, entries[1..]));
      }
    }
  }

  lemma {:induction false} BackFieldsAt(ty: Ty, vs: seq<Value>, i: nat)
    requires ty.TStruct? && |vs| == |ty.fields| && i <= |vs|
    ensures forall k :: i <= k < |vs| ==> BackFields(ty, vs, i)[k - i] == BackField(ty.fields[k], vs[k])
    decreases |vs| - i
  {
    if i < |vs| {
      BackFieldsAt(ty, vs, i + 1);
    }
  }

  lemma {:induction false} SameFields(ty: Ty, bs: seq<Value>, vs: seq<Value>, i: nat)
    requires Covered(ty) && ty.TStruct? && HasType(ty, VStruct(vs)) && i <= |vs| == |bs|
    requires forall k :: 0 <= k < |vs| ==> bs[k] == BackField(ty.fields[k], vs[k])
    ensures ContentFields(ty, bs, i) == ContentFields(ty, vs, i) <==> KeptFields(ty, vs, i)
    decreases ty, 1, |vs| - i
  {
    if i < |vs| {
      var f := ty.fields[i];
      if f.skip || (f.embedded && f.tagged) {
      } else if f.embedded {
        SameContentIn(false, f.ty, vs[i]);
      } else {
        SameContent(f.omitEmpty, f.ty, vs[i]);
      }
      SameFields(ty, bs, vs, i + 1);
      Cons(Content(f.ty, bs[i]), ContentFields(ty, bs, i + 1), Content(f.ty, vs[i]), ContentFields(ty, vs, i + 1));
    }
  }

  // ---- the round trip ----

  // EncodeRaw and Decode of a struct through documents: None when the encoder panics.
  function Trip(pl: Payload, ty: Ty, v: Value, cnt: Counters): Option<Result<Value, Fault>> {
    if !Encodes(false, TPtr(ty), VPtr(v)) then None
    else
      var ds := Enc(None, false, TPtr(ty), VPtr(v));
      Some(if ds == [] then Failure(Fault) else Dec(pl, TPtr(ty), VPtr(Zero(ty)), ds[0], cnt))
  }

  predicate ComesBack(ty: Ty, v: Value) { EncodesIn(false, ty, v) && KeptIn(false, ty, v) }

  // Encode a struct and decode it into a zero value of its type: what can be encoded can
  // be decoded, and the content of the original is there again exactly when it could be
  // encoded and is one that is kept.
  lemma RoundTrip(pl: Payload, ty: Ty, v: Value, cnt: Counters)
    requires ty.TStruct? && Covered(ty) && HasType(ty, v)
    ensures var r := Trip(pl, ty, v, cnt);
      && (r.Some? <==> EncodesIn(false, ty, v))
      && (r.Some? ==> r.value.Success? && r.value.value.VPtr?)
      && (r.Some? && Content(ty, r.value.value.to) == Content(ty, v) <==> ComesBack(ty, v))
  {
    InnerTrip(pl, None, false, ty, v, cnt);
    SameContentIn(false, ty, v);
    var ds := Enc(None, false, TPtr(ty), VPtr(v));
    assert ds == EncIn(None, false, ty, v) && ds[0].body.Obj?;
    assert Dec(pl, TPtr(ty), VPtr(Zero(ty)), ds[0], cnt) == Put(pl, TPtr(ty), VPtr(Zero(ty)), ds[0].body, cnt);
  }

  // A pointer to a nil slice of scalars, of a type the codec is made for, is what the
  // encoder panics on.
  lemma NilScalarsPanic(name: Text, e: Ty)
    requires IsScalar(e) && Covered(TSlice(e))
    ensures var ty, v := TStruct([Field(name, false, false, false, false, TPtr(TSlice(e)))]), VStruct([VPtr(VNil)]);
      && Covered(ty) && HasType(ty, v) && KeptIn(false, ty, v)
      && !EncodesIn(false, ty, v)
  {
    var f := Field(name, false, false, false, false, TPtr(TSlice(e)));
    var ty, v := TStruct([f]), VStruct([VPtr(VNil)]);
    assert Strays(ty, 0) == StraysOf(f) + Strays(ty, 1) == {};
    assert !EncodesIn(false, TSlice(e), VNil);
    assert !Encodes(false, f.ty, VPtr(VNil));
    assert !EncodesField(f, VPtr(VNil));
    assert !EncodesFields(ty, [VPtr(VNil)], 0);
    assert KeptElems(e, false, []);
    assert KeptIn(false, TSlice(e), VNil);
    assert |EncIn(None, false, TSlice(e), VNil)| == 1;
    assert KeptField(f, VPtr(VNil));
    assert KeptFields(ty, [VPtr(VNil)], 1);
    assert KeptFields(ty, [VPtr(VNil)], 0);
  }

  // ---- embedded structs with a json tag ----

  function Tagged(outer: Text, inner: seq<Field>): Ty {
    TStruct([Field(outer, true, true, false, false, TStruct(inner))])
  }

  // The encoder puts their fields in their place, the decoder looks for them under the
  // tag, and they come back zero, whatever the struct.
  lemma TaggedEmbeddingIsLost(pl: Payload, outer: Text, inner: seq<Field>, v: Value, cnt: Counters)
    requires Covered(TStruct(inner)) && HasType(TStruct(inner), v) && outer !in Keys(TStruct(inner), 0)
    ensures var ty := Tagged(outer, inner);
      && Covered(ty)
      && DecAll(pl, ty, Zero(ty), EncFields(ty, [v], 0), cnt) == Success(Zero(ty))
  {
    var ty, f := Tagged(outer, inner), Field(outer, true, true, false, false, TStruct(inner));
    assert Strays(ty, 1) == {} && Names(ty, 1) == {};
    assert Strays(ty, 0) == StraysOf(f) + Strays(ty, 1) == Keys(TStruct(inner), 0);
    assert Names(ty, 0) == NamesOf(f) + Names(ty, 1) == {outer};
    assert Zero(ty) == VStruct(ZeroFields(ty, 0));
    FieldsTrip(pl, ty, [v], 0, Zero(ty), cnt);
    assert BackFields(ty, [v], 1) == [];
    assert BackFields(ty, [v], 0) == [Zero(f.ty)] + [] == ZeroFields(ty, 0);
    assert Zero(ty).fields[..0] + BackFields(ty, [v], 0) == BackFields(ty, [v], 0);
  }

  // With the tag for one of its own names it is worse: decoding fails.
  lemma TagAsInnerNameFails(pl: Payload, outer: Text, i: int, cnt: Counters)
    requires Wrap(64, true, i) == i
    ensures var ty := Tagged(outer, [Field(outer, false, false, false, false, TInt(64, true))]);
      && HasType(ty, VStruct([VStruct([VInt(i)])]))
      && DecAll(pl, ty, Zero(ty), EncFields(ty, [VStruct([VInt(i)])], 0), cnt).Failure?
  {
    var g := Field(outer, false, false, false, false, TInt(64, true));
    var ty, vs := Tagged(outer, [g]), [VStruct([VInt(i)])];
    var f, doc := ty.fields[0], Doc(Some(outer), Sc(SVar(i)));
    assert Enc(Some(outer), false, g.ty, VInt(i)) == EncIn(Some(outer), false, g.ty, VInt(i)) == [doc];
    assert EncField(g, VInt(i)) == [doc];
    assert EncFields(f.ty, [VInt(i)], 0) == [doc] + EncFields(f.ty, [VInt(i)], 1) == [doc];
    assert EncFields(ty, vs, 0) == EncField(f, vs[0]) + EncFields(ty, vs, 1) == [doc];
    assert Locate(ty, 0, outer) == Some([0]);
    assert TypeAt(ty, [0]) == f.ty && At(Zero(ty), [0]).Some?;
    assert Put(pl, f.ty, At(Zero(ty), [0]).value, doc.body, cnt).Failure?;
    NamedDoc(pl, ty, Zero(ty), doc, cnt);
    assert [doc][1..] == [];
  }
}
