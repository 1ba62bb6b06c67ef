// Decoding what was encoded: what comes back for every value of every covered type, and
// when that is the value itself.

module CjsonRoundTrip {
  import opened Wrappers
  import opened Varint
  import opened CTags
  import opened CjsonWire
  import opened GoTypes
  import opened Floats
  import opened CjsonCodec

  // ---- what comes back ----

  function Back(omit: bool, ty: Ty, v: Value): Value
    decreases ty, 3
  {
    if ty.TPtr? then
      if v.VPtr? && EncIn(None, omit, ty.to, v.to) != [] then VPtr(BackIn(omit, ty.to, v.to)) else VNil
    else if Nullable(ty) && v.VNil? then VNil
    else BackIn(omit, ty, v)
  }

  function BackIn(omit: bool, ty: Ty, v: Value): Value
    decreases ty, 2
  {
    match ty
    case TFloat32 => if !v.VBits? then v else if omit && ZeroFloat(v.bits, 0x8000_0000) then VBits(0) else VBits(Quiet(v.bits))
    case TFloat64 => if omit && v.VBits? && ZeroFloat(v.bits, 0x8000_0000_0000_0000) then VBits(0) else v
    case TSlice(e) => if omit && Elems(v) == [] then VNil else VList(BackElems(e, false, Elems(v)))
    case TArray(_, e) => VList(BackElems(e, true, Elems(v)))
    case TMap(e) => var m := BackEntries(e, Entries(v)); if m == [] then VNil else VMap(m)
    case TStruct(fs) => if |Fields(v)| == |fs| then VStruct(BackFields(ty, Fields(v), 0)) else v
    case _ => v
  }

  function BackElems(e: Ty, fixed: bool, vs: seq<Value>): (r: seq<Value>)
    ensures |r| == |vs|
    decreases e, 4, |vs|
  {
    if vs == [] then [] else [BackElem(e, fixed, vs[0])] + BackElems(e, fixed, vs[1..])
  }

  function BackElem(e: Ty, fixed: bool, v: Value): Value
    decreases e, 4, 0
  {
    if fixed && e.TInt? && !e.signed && v.VInt? && v.i >= 0 then VInt(Wrap(e.bits, false, UnZigZag(v.i)))
    else if !fixed && e.TFloat32? then v
    else Back(false, e, v)
  }

  // Entries whose value is a nil pointer, map or slice are written as null and not read.
  function BackEntries(e: Ty, entries: seq<(Text, Value)>): seq<(Text, Value)>
    decreases e, 4, |entries|
  {
    if entries == [] then []
    else if Nullable(e) && entries[0].1.VNil? then BackEntries(e, entries[1..])
    else [(entries[0].0, Back(false, e, entries[0].1))] + BackEntries(e, entries[1..])
  }

  function BackFields(ty: Ty, vs: seq<Value>, i: nat): (r: seq<Value>)
    requires ty.TStruct? && |vs| == |ty.fields| && i <= |vs|
    ensures |r| == |vs| - i
    decreases ty, 1, |vs| - i
  {
    if i == |vs| then [] else [BackField(ty.fields[i], vs[i])] + BackFields(ty, vs, i + 1)
  }

  function BackField(f: Field, v: Value): Value
    decreases f.ty, 4
  {
    if f.skip || (f.embedded && f.tagged && f.ty.TStruct?) then Zero(f.ty)
    else if f.embedded && f.ty.TStruct? then BackIn(false, f.ty, v)
    else Back(f.omitEmpty, f.ty, v)
  }

  // ---- the trip through documents ----

  lemma WrapInt64(bits: nat, signed: bool, v: int)
    requires Wrap(bits, signed, v) == v && bits in {8, 16, 32, 64}
    ensures Wrap(bits, signed, ToInt64(v)) == v
    ensures -0x8000_0000_0000_0000 <= ToInt64(v) < 0x8000_0000_0000_0000
  {
  }

  lemma ScalarTrip(ty: Ty, v: Value, omit: bool, key: Option<Text>)
    requires IsScalar(ty) && Covered(ty) && HasType(ty, v)
    ensures var ds := EncIn(key, omit, ty, v);
      && (ds == [] ==> BackIn(omit, ty, v) == Zero(ty))
      && (ds != [] ==> ds[0].body.Sc? && PutScalar(ty, ds[0].body.s) == Success(BackIn(omit, ty, v)))
  {
    match ty
    case TInt(bits, signed) => WrapInt64(bits, signed, v.i);
    case TFloat32 => NarrowWiden(v.bits);
    case _ =>
  }

  lemma ElemTrip(e: Ty, fixed: bool, v: Value)
    requires IsScalar(e) && Covered(e) && HasType(e, v)
    ensures PutElem(e, EncScalar(e, fixed, v)) == Success(BackElem(e, fixed, v))
  {
    if e.TInt? && !(fixed && !e.signed) {
      WrapInt64(e.bits, e.signed, v.i);
    }
  }

  lemma {:induction false} ElemsTrip(e: Ty, fixed: bool, vs: seq<Value>)
    requires IsScalar(e) && Covered(e) && forall i :: 0 <= i < |vs| ==> HasType(e, vs[i])
    ensures PutScalars(e, EncScalars(e, fixed, vs)) == Success(BackElems(e, fixed, vs))
  {
    if vs != [] {
      ElemTrip(e, fixed, vs[0]);
      ElemsTrip(e, fixed, vs[1..]);
    }
  }

  // Without omitempty every value gives a document.
  lemma EncOne(key: Option<Text>, ty: Ty, v: Value)
    requires Covered(ty) && HasType(ty, v)
    ensures |Enc(key, false, ty, v)| == 1
  {
    if ty.TPtr? {
      if v.VPtr? {
        EncInOne(key, ty.to, v.to);
      }
    } else {
      EncInOne(key, ty, v);
    }
  }

  lemma EncInOne(key: Option<Text>, ty: Ty, v: Value)
    requires !ty.TPtr? && HasType(ty, v)
    ensures |EncIn(key, false, ty, v)| == 1
  {
    match ty
    case _ =>
  }

  lemma KeyFree(key: Option<Text>, omit: bool, ty: Ty, v: Value)
    ensures |EncIn(key, omit, ty, v)| == |EncIn(None, omit, ty, v)|
  {
  }

  lemma {:induction false} ValueTrip(pl: Payload, key: Option<Text>, omit: bool, ty: Ty, v: Value, cnt: Counters)
    requires Covered(ty) && HasType(ty, v)
    ensures var ds := Enc(key, omit, ty, v);
      && (ds == [] || ds[0].body.Null? ==> Back(omit, ty, v) == Zero(ty))
      && (ds != [] && !ds[0].body.Null? ==> Put(pl, ty, Zero(ty), ds[0].body, cnt) == Success(Back(omit, ty, v)))
    decreases ty, 3
  {
    if ty.TPtr? {
      if v.VPtr? {
        KeyFree(key, omit, ty.to, v.to);
        InnerTrip(pl, key, omit, ty.to, v.to, cnt);
      }
    } else if !(Nullable(ty) && v.VNil?) {
      InnerTrip(pl, key, omit, ty, v, cnt);
    }
  }

  lemma {:induction false} InnerTrip(pl: Payload, key: Option<Text>, omit: bool, ty: Ty, v: Value, cnt: Counters)
    requires Covered(ty) && HasType(ty, v) && !ty.TPtr?
    ensures var ds := EncIn(key, omit, ty, v);
      && (ds == [] ==> BackIn(omit, ty, v) == Zero(ty))
      && (ds != [] ==> PutIn(pl, ty, Zero(ty), ds[0].body, cnt) == Success(BackIn(omit, ty, v)))
      && (ds != [] && EmptyArray(ds[0].body) ==> ty.TSlice? || ty.TArray?)
    decreases ty, 2
  {
    match ty
    case TSlice(_) => SliceTrip(pl, key, omit, ty, v, cnt);
    case TArray(_, _) => ArrayTrip(pl, key, omit, ty, v, cnt);
    case TMap(_) => MapTrip(pl, key, omit, ty, v, cnt);
    case TStruct(_) => StructTrip(pl, key, omit, ty, v, cnt);
    case _ => ScalarTrip(ty, v, omit, key);
  }

  lemma {:induction false} MapTrip(pl: Payload, key: Option<Text>, omit: bool, ty: Ty, v: Value, cnt: Counters)
    requires Covered(ty) && HasType(ty, v) && ty.TMap?
    ensures var ds := EncIn(key, omit, ty, v);
      |ds| == 1 && ds[0].body.Obj? && PutIn(pl, ty, Zero(ty), ds[0].body, cnt) == Success(BackIn(omit, ty, v))
    decreases ty, 1
  {
    EntriesTrip(pl, ty, VNil, [], Entries(v), cnt);
    assert [] + BackEntries(ty.elem, Entries(v)) == BackEntries(ty.elem, Entries(v));
  }

  lemma {:induction false} StructTrip(pl: Payload, key: Option<Text>, omit: bool, ty: Ty, v: Value, cnt: Counters)
    requires Covered(ty) && HasType(ty, v) && ty.TStruct?
    ensures var ds := EncIn(key, omit, ty, v);
      |ds| == 1 && ds[0].body.Obj? && PutIn(pl, ty, Zero(ty), ds[0].body, cnt) == Success(BackIn(omit, ty, v))
    decreases ty, 1, |ty.fields| + 1
  {
    var vs, zeros := v.fields, ZeroFields(ty, 0);
    assert v == VStruct(vs) && Zero(ty) == VStruct(zeros);
    FieldsTrip(pl, ty, vs, 0, VStruct(zeros), cnt);
    NothingInFront(zeros, BackFields(ty, vs, 0));
  }

  lemma NothingInFront<T>(s: seq<T>, t: seq<T>)
    ensures s[..0] + t == t
  {
  }

  lemma {:induction false} SliceTrip(pl: Payload, key: Option<Text>, omit: bool, ty: Ty, v: Value, cnt: Counters)
    requires Covered(ty) && HasType(ty, v) && ty.TSlice?
    ensures var ds := EncIn(key, omit, ty, v);
      && (ds == [] ==> BackIn(omit, ty, v) == Zero(ty))
      && (ds != [] ==> PutIn(pl, ty, Zero(ty), ds[0].body, cnt) == Success(BackIn(omit, ty, v)))
    decreases ty, 1
  {
    var e, back := ty.elem, BackElems(ty.elem, false, Elems(v));
    assert [] + back == back;
    if IsScalar(e) {
      ElemsTrip(e, false, Elems(v));
    } else {
      DocsTrip(pl, e, false, [], Elems(v), cnt);
    }
  }

  lemma {:induction false} ArrayTrip(pl: Payload, key: Option<Text>, omit: bool, ty: Ty, v: Value, cnt: Counters)
    requires Covered(ty) && HasType(ty, v) && ty.TArray?
    ensures var ds := EncIn(key, omit, ty, v);
      && (ds == [] ==> BackIn(omit, ty, v) == Zero(ty))
      && (ds != [] ==> PutIn(pl, ty, Zero(ty), ds[0].body, cnt) == Success(BackIn(omit, ty, v)))
    decreases ty, 1
  {
    var e, back := ty.elem, BackElems(ty.elem, true, Elems(v));
    assert EncIn(key, omit, ty, v) == EncList(key, omit, ty, e, Elems(v));
    if IsScalar(e) {
      ElemsTrip(e, true, Elems(v));
      FilledByScalars(pl, ty, SubTag(e), EncScalars(e, true, Elems(v)), back, cnt);
    } else {
      DocsTrip(pl, e, true, Zero(ty).elems, Elems(v), cnt);
      FilledByDocs(pl, ty, EncElems(e, Elems(v)), back, cnt);
    }
  }

  // A fixed array that gets as many elements as it has.
  lemma FilledByScalars(pl: Payload, ty: Ty, tag: nat, ss: seq<Scalar>, xs: seq<Value>, cnt: Counters)
    requires ty.TArray? && |xs| == |ss| == ty.len && PutScalars(ty.elem, ss) == Success(xs)
    ensures PutIn(pl, ty, Zero(ty), Arr(tag, ss), cnt) == Success(VList(xs))
  {
    assert xs + Zero(ty).elems[|ss|..] == xs;
  }

  lemma FilledByDocs(pl: Payload, ty: Ty, ds: seq<Doc>, xs: seq<Value>, cnt: Counters)
    requires ty.TArray? && |xs| == |ds| == ty.len && DecElems(pl, ty.elem, Zero(ty).elems, ds, cnt) == Success(xs)
    ensures PutIn(pl, ty, Zero(ty), Objs(ds), cnt) == Success(VList(xs))
  {
    assert xs + Zero(ty).elems[|ds|..] == xs;
  }

  lemma {:induction false} DocsTrip(pl: Payload, e: Ty, fixed: bool, olds: seq<Value>, vs: seq<Value>, cnt: Counters)
    requires Covered(e) && !IsScalar(e) && forall i :: 0 <= i < |vs| ==> HasType(e, vs[i])
    requires olds == [] || (|olds| == |vs| && forall i :: 0 <= i < |olds| ==> olds[i] == Zero(e))
    ensures |EncElems(e, vs)| == |vs|
    ensures DecElems(pl, e, olds, EncElems(e, vs), cnt) == Success(BackElems(e, fixed, vs))
    decreases e, 4, |vs|
  {
    if vs != [] {
      EncOne(None, e, vs[0]);
      var ds := EncElems(e, vs);
      assert ds == Enc(None, false, e, vs[0]) + EncElems(e, vs[1..]);
      assert ds[1..] == EncElems(e, vs[1..]);
      ValueTrip(pl, None, false, e, vs[0], cnt);
      assert Dec(pl, e, Zero(e), ds[0], cnt) == Success(BackElem(e, fixed, vs[0]));
      DocsTrip(pl, e, fixed, if olds == [] then [] else olds[1..], vs[1..], CountDoc(ds[0], cnt));
    }
  }

  // ---- maps ----

  predicate HasKey(entries: seq<(Text, Value)>, key: Text) {
    exists i :: 0 <= i < |entries| && entries[i].0 == key
  }

  lemma {:induction false} NewKeyGoesLast(entries: seq<(Text, Value)>, key: Text, x: Value)
    requires !HasKey(entries, key)
    ensures SetEntry(entries, key, x) == entries + [(key, x)]
  {
    if entries != [] {
      assert entries[0].0 != key;
      assert forall i :: 0 <= i < |entries[1..]| ==> entries[1..][i] == entries[i + 1];
      NewKeyGoesLast(entries[1..], key, x);
    }
  }

  function MapOf(entries: seq<(Text, Value)>): Value { if entries == [] then VNil else VMap(entries) }

  lemma {:induction false} EntriesTrip(
    pl: Payload, ty: Ty, cur: Value, done: seq<(Text, Value)>, entries: seq<(Text, Value)>, cnt: Counters)
    requires ty.TMap? && Covered(ty.elem) && cur == MapOf(done)
    requires forall i :: 0 <= i < |entries| ==> HasType(ty.elem, entries[i].1) && !HasKey(done, entries[i].0)
    requires DistinctKeys(entries)
    ensures DecAll(pl, ty, cur, EncEntries(ty.elem, entries), cnt) == Success(MapOf(done + BackEntries(ty.elem, entries)))
    decreases ty.elem, 4, |entries|
  {
    var e := ty.elem;
    if entries == [] {
      assert done + [] == done;
    } else {
      var done' := done + BackEntries(e, [entries[0]]);
      EntryTrip(pl, ty, done, entries[0], cnt);
      var d := EncEntries(e, entries)[0];
      assert EncEntries(e, entries)[1..] == EncEntries(e, entries[1..]);
      forall i | 0 <= i < |entries[1..]| ensures !HasKey(done', entries[1..][i].0) {
        assert entries[1..][i] == entries[i + 1];
        OneMoreKey(e, done, entries[0], entries[i + 1].0);
      }
      EntriesTrip(pl, ty, MapOf(done'), done', entries[1..], CountDoc(d, cnt));
      BackEntriesSplit(e, done, entries);
    }
  }

  lemma OneMoreKey(e: Ty, done: seq<(Text, Value)>, entry: (Text, Value), key: Text)
    requires !HasKey(done, key) && entry.0 != key
    ensures !HasKey(done + BackEntries(e, [entry]), key)
  {
    BackOne(e, entry);
  }

  lemma BackOne(e: Ty, entry: (Text, Value))
    ensures BackEntries(e, [entry]) == if Nullable(e) && entry.1.VNil? then [] else [(entry.0, Back(false, e, entry.1))]
  {
    assert |[entry][1..]| == 0;
  }

  lemma BackEntriesSplit(e: Ty, done: seq<(Text, Value)>, entries: seq<(Text, Value)>)
    requires entries != []
    ensures done + BackEntries(e, [entries[0]]) + BackEntries(e, entries[1..]) == done + BackEntries(e, entries)
  {
    BackOne(e, entries[0]);
  }

  lemma {:induction false} EntryTrip(pl: Payload, ty: Ty, done: seq<(Text, Value)>, entry: (Text, Value), cnt: Counters)
    requires ty.TMap? && Covered(ty.elem) && HasType(ty.elem, entry.1) && !HasKey(done, entry.0)
    ensures var ds := Enc(Some(entry.0), false, ty.elem, entry.1);
      |ds| == 1 && Dec(pl, ty, MapOf(done), ds[0], cnt) == Success(MapOf(done + BackEntries(ty.elem, [entry])))
    decreases ty.elem, 4, 0
  {
    var e := ty.elem;
    EncOne(Some(entry.0), e, entry.1);
    ValueTrip(pl, Some(entry.0), false, e, entry.1, cnt);
    BackOne(e, entry);
    if Nullable(e) && entry.1.VNil? {
      assert done + [] == done;
    } else {
      NewKeyGoesLast(done, entry.0, Back(false, e, entry.1));
      NamedDoc(pl, ty, MapOf(done), Enc(Some(entry.0), false, e, entry.1)[0], cnt);
    }
  }

  // ---- structs ----

  // A name of field i that no field before it answers to is found at field i.
  lemma {:induction false} FoundAt(ty: Ty, j: nat, i: nat, name: Text)
    requires ty.TStruct? && j <= i < |ty.fields| && name in NamesOf(ty.fields[i])
    requires forall k :: j <= k < i ==> name !in NamesOf(ty.fields[k])
    ensures var f := ty.fields[i];
      Locate(ty, j, name) == (if Flattened(f) then Some([i] + Locate(f.ty, 0, name).value) else Some([i]))
    decreases i - j
  {
    if j < i {
      FoundAt(ty, j + 1, i, name);
    }
  }

  // The documents of a struct's fields carry names of that struct.
  predicate NamedIn(ds: seq<Doc>, names: set<Text>) {
    forall i :: 0 <= i < |ds| ==> ds[i].key.Some? && ds[i].key.value in names
  }

  lemma {:induction false} FieldKeys(ty: Ty, vs: seq<Value>, i: nat)
    requires Covered(ty) && ty.TStruct? && |vs| == |ty.fields| && i <= |vs|
    ensures NamedIn(EncFields(ty, vs, i), Keys(ty, i))
    decreases ty, 1, |vs| - i
  {
    if i < |vs| {
      FieldKey(ty.fields[i], vs[i]);
      FieldKeys(ty, vs, i + 1);
    }
  }

  lemma {:induction false} FieldKey(f: Field, v: Value)
    requires Covered(f.ty) && (f.embedded ==> f.ty.TStruct?)
    ensures NamedIn(EncField(f, v), KeysOf(f))
    decreases f.ty, 4
  {
    if !f.skip && f.embedded && |Fields(v)| == |f.ty.fields| {
      FieldKeys(f.ty, Fields(v), 0);
    }
  }

  lemma {:induction false} KeysInTwo(ty: Ty, i: nat)
    requires ty.TStruct? && i <= |ty.fields|
    ensures Keys(ty, i) == OwnKeys(ty, i) + Strays(ty, i)
    decreases ty, 0, |ty.fields| - i
  {
    if i < |ty.fields| {
      KeyInTwo(ty.fields[i]);
      KeysInTwo(ty, i + 1);
    }
  }

  lemma {:induction false} KeyInTwo(f: Field)
    ensures KeysOf(f) == OwnKeysOf(f) + StraysOf(f)
    decreases f.ty, 1
  {
    if Flattened(f) {
      KeysInTwo(f.ty, 0);
    }
  }

  lemma {:induction false} InStruct(ty: Ty, j: nat, i: nat)
    requires ty.TStruct? && j <= i < |ty.fields|
    ensures NamesOf(ty.fields[i]) <= Names(ty, j) && StraysOf(ty.fields[i]) <= Strays(ty, j)
    decreases i - j
  {
    if j < i {
      InStruct(ty, j + 1, i);
    }
  }

  // Reading a name written by field i, the reader comes to field i, or nowhere.
  predicate Homes(ty: Ty, i: nat, name: Text)
    requires ty.TStruct? && i < |ty.fields|
  {
    || name !in Names(ty, 0)
    || (name in NamesOf(ty.fields[i]) && forall k :: 0 <= k < i ==> name !in NamesOf(ty.fields[k]))
  }

  lemma KeyHomes(ty: Ty, i: nat, name: Text)
    requires ty.TStruct? && Covered(ty) && i < |ty.fields| && name in KeysOf(ty.fields[i])
    ensures Homes(ty, i, name)
    ensures name in StraysOf(ty.fields[i]) ==> name !in Names(ty, 0)
  {
    KeyInTwo(ty.fields[i]);
    InStruct(ty, 0, i);
    OwnKeyIsName(ty.fields[i]);
  }

  lemma NamedDoc(pl: Payload, ty: Ty, cur: Value, d: Doc, cnt: Counters)
    requires d.key.Some? && !d.body.Null? && !ty.TPtr?
    ensures Dec(pl, ty, cur, d, cnt) == DecNamed(pl, ty, cur, d.key.value, d.body, cnt)
  {
    assert Dec(pl, ty, cur, d, cnt) == DecKeyed(pl, ty, cur, d.key.value, d.body, cnt);
  }

  lemma LiftPath(ty: Ty, i: nat, vs: seq<Value>, path: seq<nat>)
    requires ty.TStruct? && i < |ty.fields| == |vs| && IsPath(ty.fields[i].ty, path)
    ensures IsPath(ty, [i] + path)
    ensures TypeAt(ty, [i] + path) == TypeAt(ty.fields[i].ty, path)
    ensures At(VStruct(vs), [i] + path) == At(vs[i], path)
    ensures forall x :: SetAt(VStruct(vs), [i] + path, x) == VStruct(vs[i := SetAt(vs[i], path, x)])
  {
    assert ([i] + path)[1..] == path;
  }

  lemma LiftOne(pl: Payload, ty: Ty, i: nat, vs: seq<Value>, d: Doc, cnt: Counters)
    requires ty.TStruct? && i < |ty.fields| == |vs| && Flattened(ty.fields[i])
    requires d.key.Some? && Homes(ty, i, d.key.value)
    ensures var r := Dec(pl, ty.fields[i].ty, vs[i], d, cnt);
      vs[i].VStruct? ==>
        Dec(pl, ty, VStruct(vs), d, cnt) == if r.Success? then Success(VStruct(vs[i := r.value])) else r
  {
    assert vs[i := vs[i]] == vs;
    var inner, name := ty.fields[i].ty, d.key.value;
    InStruct(ty, 0, i);
    if !d.body.Null? {
      NamedDoc(pl, ty, VStruct(vs), d, cnt);
      NamedDoc(pl, inner, vs[i], d, cnt);
      if name in Names(ty, 0) {
        FoundAt(ty, 0, i, name);
        LiftPath(ty, i, vs, Locate(inner, 0, name).value);
      }
    }
  }

  // Documents of an embedded struct, decoded into the struct around it.
  lemma {:induction false} Lift(pl: Payload, ty: Ty, i: nat, vs: seq<Value>, ds: seq<Doc>, cnt: Counters)
    requires ty.TStruct? && i < |ty.fields| == |vs| && Flattened(ty.fields[i]) && vs[i].VStruct?
    requires forall k :: 0 <= k < |ds| ==> ds[k].key.Some? && Homes(ty, i, ds[k].key.value)
    ensures var r := DecAll(pl, ty.fields[i].ty, vs[i], ds, cnt);
      DecAll(pl, ty, VStruct(vs), ds, cnt) == if r.Success? then Success(VStruct(vs[i := r.value])) else r
    decreases |ds|
  {
    var inner := ty.fields[i].ty;
    if ds == [] {
      assert vs[i := vs[i]] == vs;
    } else {
      LiftOne(pl, ty, i, vs, ds[0], cnt);
      var r := Dec(pl, inner, vs[i], ds[0], cnt);
      if r.Success? {
        StaysStruct(pl, inner, vs[i], ds[0], cnt);
        Lift(pl, ty, i, vs[i := r.value], ds[1..], CountDoc(ds[0], cnt));
        var r' := DecAll(pl, inner, r.value, ds[1..], CountDoc(ds[0], cnt));
        if r'.Success? {
          assert vs[i := r.value][i := r'.value] == vs[i := r'.value];
        }
      }
    }
  }

  lemma StaysStruct(pl: Payload, ty: Ty, cur: Value, d: Doc, cnt: Counters)
    requires ty.TStruct? && cur.VStruct? && d.key.Some?
    ensures var r := Dec(pl, ty, cur, d, cnt); r.Success? ==> r.value.VStruct?
  {
    if !d.body.Null? {
      NamedDoc(pl, ty, cur, d, cnt);
    }
  }

  // Documents under names that lead nowhere change nothing.
  lemma {:induction false} StraysPass(pl: Payload, ty: Ty, cur: Value, ds: seq<Doc>, cnt: Counters)
    requires ty.TStruct?
    requires forall k :: 0 <= k < |ds| ==> ds[k].key.Some? && ds[k].key.value !in Names(ty, 0)
    ensures DecAll(pl, ty, cur, ds, cnt) == Success(cur)
    decreases |ds|
  {
    if ds != [] {
      if !ds[0].body.Null? {
        NamedDoc(pl, ty, cur, ds[0], cnt);
      }
      StraysPass(pl, ty, cur, ds[1..], CountDoc(ds[0], cnt));
    }
  }

  lemma {:induction false} DecAppend(pl: Payload, ty: Ty, cur: Value, xs: seq<Doc>, ys: seq<Doc>, cnt: Counters)
    ensures var r := DecAll(pl, ty, cur, xs, cnt);
      DecAll(pl, ty, cur, xs + ys, cnt) == if r.Success? then DecAll(pl, ty, r.value, ys, CountDocs(xs, cnt)) else r
    decreases |xs|
  {
    if xs == [] {
      assert xs + ys == ys;
    } else {
      assert (xs + ys)[1..] == xs[1..] + ys;
      var r := Dec(pl, ty, cur, xs[0], cnt);
      if r.Success? {
        DecAppend(pl, ty, r.value, xs[1..], ys, CountDoc(xs[0], cnt));
      }
    }
  }

  // Fields from i on, into a struct that has its zero values there.
  lemma {:induction false} FieldsTrip(pl: Payload, ty: Ty, vs: seq<Value>, i: nat, cur: Value, cnt: Counters)
    requires Covered(ty) && HasType(ty, VStruct(vs)) && ty.TStruct? && i <= |vs|
    requires cur.VStruct? && |cur.fields| == |vs|
    requires forall k :: i <= k < |vs| ==> cur.fields[k] == Zero(ty.fields[k].ty)
    ensures DecAll(pl, ty, cur, EncFields(ty, vs, i), cnt) == Success(VStruct(cur.fields[..i] + BackFields(ty, vs, i)))
    decreases ty, 1, |vs| - i
  {
    if i == |vs| {
      assert cur.fields[..i] + [] == cur.fields;
    } else {
      var xs, ys := EncField(ty.fields[i], vs[i]), EncFields(ty, vs, i + 1);
      FieldTrip(pl, ty, vs, i, cur, cnt);
      DecAppend(pl, ty, cur, xs, ys, cnt);
      var next := VStruct(cur.fields[i := BackField(ty.fields[i], vs[i])]);
      FieldsTrip(pl, ty, vs, i + 1, next, CountDocs(xs, cnt));
      OneField(cur.fields, i, BackField(ty.fields[i], vs[i]), BackFields(ty, vs, i + 1));
    }
  }

  lemma OneField(fields: seq<Value>, i: nat, x: Value, rest: seq<Value>)
    requires i < |fields|
    ensures fields[i := x][..i + 1] + rest == fields[..i] + ([x] + rest)
  {
  }

  lemma {:induction false} FieldTrip(pl: Payload, ty: Ty, vs: seq<Value>, i: nat, cur: Value, cnt: Counters)
    requires Covered(ty) && HasType(ty, VStruct(vs)) && ty.TStruct? && i < |vs|
    requires cur.VStruct? && |cur.fields| == |vs| && cur.fields[i] == Zero(ty.fields[i].ty)
    ensures DecAll(pl, ty, cur, EncField(ty.fields[i], vs[i]), cnt)
         == Success(VStruct(cur.fields[i := BackField(ty.fields[i], vs[i])]))
    decreases ty, 0
  {
    var f, ds := ty.fields[i], EncField(ty.fields[i], vs[i]);
    assert cur.fields[i := cur.fields[i]] == cur.fields;
    FieldKey(f, vs[i]);
    forall k | 0 <= k < |ds| ensures ds[k].key.Some? && Homes(ty, i, ds[k].key.value) {
      KeyHomes(ty, i, ds[k].key.value);
    }
    if f.skip {
    } else if f.embedded && f.tagged {
      forall k | 0 <= k < |ds| ensures ds[k].key.value !in Names(ty, 0) {
        KeyHomes(ty, i, ds[k].key.value);
      }
      StraysPass(pl, ty, cur, ds, cnt);
    } else if f.embedded {
      Lift(pl, ty, i, cur.fields, ds, cnt);
      FieldsTrip(pl, f.ty, Fields(vs[i]), 0, Zero(f.ty), cnt);
      assert Zero(f.ty).fields[..0] + BackFields(f.ty, Fields(vs[i]), 0) == BackFields(f.ty, Fields(vs[i]), 0);
    } else {
      ValueTrip(pl, Some(f.name), f.omitEmpty, f.ty, vs[i], cnt);
      FoundAt(ty, 0, i, f.name);
      if ds != [] {
        assert ds[1..] == [];
        if !ds[0].body.Null? {
          FieldPut(pl, ty, i, cur, ds[0], BackField(f, vs[i]), cnt);
        }
      }
    }
  }

  lemma FieldPut(pl: Payload, ty: Ty, i: nat, cur: Value, d: Doc, x: Value, cnt: Counters)
    requires ty.TStruct? && i < |ty.fields| && cur.VStruct? && |cur.fields| == |ty.fields|
    requires d.key.Some? && Locate(ty, 0, d.key.value) == Some([i]) && !d.body.Null?
    requires Put(pl, ty.fields[i].ty, cur.fields[i], d.body, cnt) == Success(x)
    ensures Dec(pl, ty, cur, d, cnt) == Success(VStruct(cur.fields[i := x]))
  {
    NamedDoc(pl, ty, cur, d, cnt);
    assert At(cur, [i]) == Some(cur.fields[i]) && TypeAt(ty, [i]) == ty.fields[i].ty;
    assert SetAt(cur, [i], x) == VStruct(cur.fields[i := x]);
  }
}
