// Values through bytes and back: the encoder and the decoder put together.

module CjsonTrip {
  import opened Wrappers
  import opened CTags
  import opened CjsonWire
  import opened GoTypes
  import opened Floats
  import opened CjsonCodec
  import opened CjsonRoundTrip
  import opened CjsonSame
  import opened CjsonSerializer
  import opened CjsonEncoder
  import opened CjsonDecoder
  import opened CjsonState
  import opened CjsonFrame
  import opened CTagsCache
  import opened Varint

  // No list of 2^24 elements or more.
  predicate Short(ty: Ty, v: Value)
    decreases ty
  {
    match ty
    case TSlice(e) => |Elems(v)| < 0x100_0000 && forall i :: 0 <= i < |Elems(v)| ==> Short(e, Elems(v)[i])
    case TArray(_, e) => |Elems(v)| < 0x100_0000 && forall i :: 0 <= i < |Elems(v)| ==> Short(e, Elems(v)[i])
    case TPtr(t) => v.VPtr? ==> Short(t, v.to)
    case TMap(e) => forall i :: 0 <= i < |Entries(v)| ==> Short(e, Entries(v)[i].1)
    case TStruct(fs) => |Fields(v)| == |fs| ==> forall i :: 0 <= i < |fs| ==> Short(fs[i].ty, Fields(v)[i])
    case _ => true
  }

  lemma {:induction false} KeysSplit(tags: seq<Text>, xs: seq<Doc>, ys: seq<Doc>)
    requires KeysIn(tags, xs + ys)
    ensures KeysIn(tags, xs) && KeysIn(tags, ys)
    decreases |xs|
  {
    if xs == [] {
      assert xs + ys == ys;
    } else {
      assert (xs + ys)[1..] == xs[1..] + ys;
      KeysSplit(tags, xs[1..], ys);
    }
  }

  lemma {:induction false} FitConcat(tags: seq<Text>, xs: seq<Doc>, ys: seq<Doc>)
    requires DocsFit(tags, xs) && DocsFit(tags, ys)
    ensures DocsFit(tags, xs + ys)
    decreases |xs|
  {
    if xs == [] {
      assert xs + ys == ys;
    } else {
      assert (xs + ys)[1..] == xs[1..] + ys;
      FitConcat(tags, xs[1..], ys);
    }
  }

  // From a document to the documents inside, and back.
  lemma Inside(tags: seq<Text>, d: Doc)
    requires KeyIn(tags, d)
    ensures d.body.Obj? ==> KeysIn(tags, d.body.fields)
    ensures d.body.Objs? ==> KeysIn(tags, d.body.docs)
  {
  }

  lemma Around(tags: seq<Text>, d: Doc)
    requires |tags| < 0x1000 && (d.key.Some? ==> d.key.value in tags)
    requires (d.body.Obj? && DocsFit(tags, d.body.fields))
      || (d.body.Objs? && |d.body.docs| < 0x100_0000 && DocsFit(tags, d.body.docs))
      || (d.body.Arr? && BodyFits(tags, d.body))
    ensures DocsFit(tags, [d])
  {
    assert |[d][1..]| == 0;
  }

  lemma ScalarsFit(e: Ty, fixed: bool, v: Value)
    requires IsScalar(e) && Covered(e) && HasType(e, v)
    ensures ScalarFits(EncScalar(e, fixed, v)) && ScalarTag(EncScalar(e, fixed, v)) == SubTag(e) != OBJECT
  {
    if e.TInt? {
      WrapInt64(e.bits, e.signed, v.i);
    } else if e.TFloat32? {
      NarrowWiden(v.bits);
    }
  }

  lemma {:induction false} ValueFits(tags: seq<Text>, key: Option<Text>, omit: bool, ty: Ty, v: Value)
    requires Covered(ty) && HasType(ty, v) && Short(ty, v) && |tags| < 0x1000 && KeysIn(tags, Enc(key, omit, ty, v))
    ensures DocsFit(tags, Enc(key, omit, ty, v))
    decreases ty, 3
  {
    if ty.TPtr? {
      if v.VPtr? {
        InnerFits(tags, key, omit, ty.to, v.to);
      }
    } else if !(Nullable(ty) && v.VNil?) {
      InnerFits(tags, key, omit, ty, v);
    }
  }

  lemma {:induction false} InnerFits(tags: seq<Text>, key: Option<Text>, omit: bool, ty: Ty, v: Value)
    requires Covered(ty) && HasType(ty, v) && Short(ty, v) && |tags| < 0x1000 && !ty.TPtr?
    requires KeysIn(tags, EncIn(key, omit, ty, v))
    ensures DocsFit(tags, EncIn(key, omit, ty, v))
    decreases ty, 2
  {
    var ds := EncIn(key, omit, ty, v);
    if ds != [] { Inside(tags, ds[0]); }
    match ty
    case TSlice(_) => ListFits(tags, key, omit, ty, v);
    case TArray(_, _) => ListFits(tags, key, omit, ty, v);
    case TMap(e) =>
      EntriesFit(tags, e, Entries(v));
      Around(tags, ds[0]);
    case TStruct(_) =>
      FieldsFit(tags, ty, Fields(v), 0);
      Around(tags, ds[0]);
    case TInt(bits, signed) => WrapInt64(bits, signed, v.i);
    case _ =>
  }

  lemma {:induction false} ListFits(tags: seq<Text>, key: Option<Text>, omit: bool, ty: Ty, v: Value)
    requires Covered(ty) && HasType(ty, v) && Short(ty, v) && |tags| < 0x1000 && (ty.TSlice? || ty.TArray?)
    requires KeysIn(tags, EncIn(key, omit, ty, v))
    ensures DocsFit(tags, EncIn(key, omit, ty, v))
    decreases ty, 1
  {
    var e, ds := ty.elem, EncIn(key, omit, ty, v);
    assert ds == EncList(key, omit, ty, e, Elems(v));
    if ds != [] { Inside(tags, ds[0]); }
    if IsScalar(e) {
      var ss := EncScalars(e, ty.TArray?, Elems(v));
      forall i | 0 <= i < |ss| ensures ScalarFits(ss[i]) && ScalarTag(ss[i]) == SubTag(e) {
        ScalarsFit(e, ty.TArray?, Elems(v)[i]);
      }
      if ds != [] {
        assert BodyFits(tags, Arr(SubTag(e), ss));
        Around(tags, ds[0]);
      }
    } else if ds != [] {
      ElemsFit(tags, e, Elems(v));
      ElemsLength(e, Elems(v));
      Around(tags, ds[0]);
    }
  }

  lemma {:induction false} ElemsFit(tags: seq<Text>, e: Ty, vs: seq<Value>)
    requires Covered(e) && |tags| < 0x1000 && KeysIn(tags, EncElems(e, vs))
    requires forall i :: 0 <= i < |vs| ==> HasType(e, vs[i]) && Short(e, vs[i])
    ensures DocsFit(tags, EncElems(e, vs))
    decreases e, 4, |vs|
  {
    if vs != [] {
      KeysSplit(tags, Enc(None, false, e, vs[0]), EncElems(e, vs[1..]));
      ValueFits(tags, None, false, e, vs[0]);
      ElemsFit(tags, e, vs[1..]);
      FitConcat(tags, Enc(None, false, e, vs[0]), EncElems(e, vs[1..]));
    }
  }

  lemma {:induction false} EntriesFit(tags: seq<Text>, e: Ty, entries: seq<(Text, Value)>)
    requires Covered(e) && |tags| < 0x1000 && KeysIn(tags, EncEntries(e, entries))
    requires forall i :: 0 <= i < |entries| ==> HasType(e, entries[i].1) && Short(e, entries[i].1)
    ensures DocsFit(tags, EncEntries(e, entries))
    decreases e, 4, |entries|
  {
    if entries != [] {
      var first := Enc(Some(entries[0].0), false, e, entries[0].1);
      KeysSplit(tags, first, EncEntries(e, entries[1..]));
      ValueFits(tags, Some(entries[0].0), false, e, entries[0].1);
      EntriesFit(tags, e, entries[1..]);
      FitConcat(tags, first, EncEntries(e, entries[1..]));
    }
  }

  lemma {:induction false} FieldsFit(tags: seq<Text>, ty: Ty, vs: seq<Value>, i: nat)
    requires Covered(ty) && ty.TStruct? && HasType(ty, VStruct(vs)) && i <= |vs| && |tags| < 0x1000
    requires forall k :: 0 <= k < |vs| ==> Short(ty.fields[k].ty, vs[k])
    requires KeysIn(tags, EncFields(ty, vs, i))
    ensures DocsFit(tags, EncFields(ty, vs, i))
    decreases ty, 1, |vs| - i
  {
    if i < |vs| {
      var f := ty.fields[i];
      KeysSplit(tags, EncField(f, vs[i]), EncFields(ty, vs, i + 1));
      if f.skip {
      } else if f.embedded {
        FieldsFit(tags, f.ty, Fields(vs[i]), 0);
      } else {
        ValueFits(tags, Some(f.name), f.omitEmpty, f.ty, vs[i]);
      }
      FieldsFit(tags, ty, vs, i + 1);
      FitConcat(tags, EncField(f, vs[i]), EncFields(ty, vs, i + 1));
    }
  }

  // EncodeRaw and then Decode of the bytes under one state, into a new value of the type,
  // with any dictionary and caches the state may have: what the encoder does not panic on
  // is decoded, and the content of the struct is there again exactly when it comes back
  // by the rules.
  method ThereAndBack(ty: Ty, v: Value, state: State) returns (ok: bool, w: Value)
    requires ty.TStruct? && Covered(ty) && HasType(ty, v) && Short(ty, v)
    requires state.Valid() && state.item == TPtr(ty)
    requires |Learn(state.data.tags, Looks(false, TPtr(ty), VPtr(v)))| < 0x1000
    modifies state.data
    ensures state.Valid() && (ok <==> EncodesIn(false, ty, v)) && (ok ==> w.VPtr?)
    ensures ok && Content(ty, w.to) == Content(ty, v) <==> ComesBack(ty, v)
  {
    w := VNil;
    var ser := new Serializer([]);
    RoundTrip(map[], ty, v, seq(256, i => 0));
    ok := state.EncodeRaw(VPtr(v), ser);
    if ok {
      ghost var tags, ds := state.data.tags, Enc(None, false, TPtr(ty), VPtr(v));
      ValueFits(tags, None, false, TPtr(ty), VPtr(v));
      OneDocument(tags, ty, v);
      var rd := new Serializer(ser.arr[..ser.len]);
      ok, w := state.Decode(TPtr(ty), VPtr(Zero(ty)), map[], rd, ds[0], []);
    }
  }

  lemma OneDocument(tags: seq<Text>, ty: Ty, v: Value)
    requires ty.TStruct? && Covered(ty) && HasType(ty, v)
    ensures var ds := Enc(None, false, TPtr(ty), VPtr(v)); |ds| == 1 && DocsBytes(tags, ds) == DocBytes(tags, ds[0]) + []
  {
    var ds := Enc(None, false, TPtr(ty), VPtr(v));
    EncOne(None, TPtr(ty), VPtr(v));
    assert ds == [ds[0]] && [ds[0]][1..] == [];
  }

  // A reader of items: one in a frame brings its dictionary, any other is read by the
  // dictionary the reader has. d and tags say what the bytes should be.
  method ReadItem(ty: Ty, slice: seq<byte>, known: seq<Text>, ghost d: Doc, ghost tags: seq<Text>) returns (ok: bool, w: Value)
    requires DocFits(tags, d) && |DocBytes(tags, d)| + 5 < 0x1_0000_0000
    requires slice == if tags == known then DocBytes(tags, d) else Framed(DocBytes(tags, d), DictBytes(tags))
    ensures var r := Dec(map[], TPtr(ty), VPtr(Zero(ty)), d, seq(256, i => 0));
      ok == r.Success? && (ok ==> w == r.value)
  {
    w := VNil;
    assert DocBytes(tags, d) + [] == DocBytes(tags, d);
    UnframedIsPayload(tags, d, []);
    FrameRecovered(DocBytes(tags, d), DictBytes(tags));
    var item := Unframe(slice).value;
    var names := known;
    ok := true;
    if item.dict.Some? {
      var tm := new Serializer(item.dict.value);
      assert DictBytes(tags) + [] == DictBytes(tags);
      ok, names := ReadTags(tm, false, known, tags, []);
    }
    EmptyCacheOk(TPtr(ty), names);
    var rd := new Serializer(item.payload);
    var dec := new Decoder(TPtr(ty), names, map[], rd, Cache([]), {});
    ok, w := dec.Decode(VPtr(Zero(ty)), d, []);
  }

  // Encode and then a reader that has the dictionary from before: new names or not, the
  // same comes back as by way of a shared state, and the writer's dictionary is untouched.
  method ThereAndBackInFrame(ty: Ty, v: Value, state: State) returns (ok: bool, w: Value)
    requires ty.TStruct? && Covered(ty) && HasType(ty, v) && Short(ty, v)
    requires state.Valid() && state.item == TPtr(ty)
    requires var tags := Learn(state.data.tags, Looks(false, TPtr(ty), VPtr(v)));
      |tags| < 0x1000 && |DocsBytes(tags, Enc(None, false, TPtr(ty), VPtr(v)))| + 5 < 0x1_0000_0000
    modifies state.data`ctagsWCache
    ensures state.Valid() && (ok <==> EncodesIn(false, ty, v)) && (ok ==> w.VPtr?)
    ensures ok && Content(ty, w.to) == Content(ty, v) <==> ComesBack(ty, v)
  {
    w := VNil;
    var ser := new Serializer([]);
    RoundTrip(map[], ty, v, seq(256, i => 0));
    ok := state.Encode(VPtr(v), ser);
    if ok {
      ghost var tags := Learn(state.data.tags, Looks(false, TPtr(ty), VPtr(v)));
      ghost var ds := Enc(None, false, TPtr(ty), VPtr(v));
      ValueFits(tags, None, false, TPtr(ty), VPtr(v));
      OneDocument(tags, ty, v);
      assert DocBytes(tags, ds[0]) + [] == DocBytes(tags, ds[0]);
      ok, w := ReadItem(ty, ser.arr[..ser.len], state.data.tags, ds[0], tags);
    }
  }
}
