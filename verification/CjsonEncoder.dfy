// The encoder of cjson/encoder.go: it writes the bytes of the documents, teaches the
// dictionary new names as it goes, and remembers per field what it found out.

module CjsonEncoder {
  import opened Wrappers
  import opened Varint
  import opened CTags
  import opened CjsonWire
  import opened GoTypes
  import opened Floats
  import opened CjsonCodec
  import CjsonRoundTrip
  import opened CjsonSerializer
  import opened CjsonWriter

  // ---- the names a value makes the encoder look up, in order ----

  function Looks(omit: bool, ty: Ty, v: Value): seq<Text>
    decreases ty, 3
  {
    if Nullable(ty) && v.VNil? then []
    else if ty.TPtr? then (if v.VPtr? then LooksIn(omit, ty.to, v.to) else [])
    else LooksIn(omit, ty, v)
  }

  function LooksIn(omit: bool, ty: Ty, v: Value): seq<Text>
    decreases ty, 2
  {
    match ty
    case TSlice(e) => if (omit && Elems(v) == []) || IsScalar(e) then [] else LooksElems(e, Elems(v))
    case TArray(_, e) => if (omit && Elems(v) == []) || IsScalar(e) then [] else LooksElems(e, Elems(v))
    case TMap(e) => LooksEntries(e, Entries(v))
    case TStruct(fs) => if |Fields(v)| == |fs| then LooksFields(ty, Fields(v), 0) else []
    case _ => []
  }

  function LooksElems(e: Ty, vs: seq<Value>): seq<Text>
    decreases e, 4, |vs|
  {
    if vs == [] then [] else Looks(false, e, vs[0]) + LooksElems(e, vs[1..])
  }

  function LooksEntries(e: Ty, entries: seq<(Text, Value)>): seq<Text>
    decreases e, 4, |entries|
  {
    if entries == [] then [] else [entries[0].0] + Looks(false, e, entries[0].1) + LooksEntries(e, entries[1..])
  }

  function LooksFields(ty: Ty, vs: seq<Value>, i: nat): seq<Text>
    requires ty.TStruct? && |vs| == |ty.fields| && i <= |vs|
    decreases ty, 1, |vs| - i
  {
    if i == |vs| then [] else LooksField(ty.fields[i], vs[i]) + LooksFields(ty, vs, i + 1)
  }

  function LooksField(f: Field, v: Value): seq<Text>
    decreases f.ty, 6
  {
    if f.skip then [] else [f.name] + LooksInfo(f.omitEmpty, f.embedded, f.ty, v)
  }

  function LooksInfo(omit: bool, embedded: bool, ty: Ty, v: Value): seq<Text>
    decreases ty, 5
  {
    if embedded && ty.TStruct? then (if |Fields(v)| == |ty.fields| then LooksFields(ty, Fields(v), 0) else [])
    else Looks(omit, ty, v)
  }

  // ---- the dictionary ----

  function Learn(tags: seq<Text>, names: seq<Text>): seq<Text>
    decreases |names|
  {
    if names == [] then tags
    else Learn(if names[0] in tags then tags else tags + [names[0]], names[1..])
  }

  // b has all of a's names under their tags, and maybe more.
  predicate Extends(a: seq<Text>, b: seq<Text>) {
    a <= b && forall n :: n in a ==> TagOf(b, n) == TagOf(a, n)
  }

  lemma {:induction false} LearnExtends(tags: seq<Text>, names: seq<Text>)
    ensures Extends(tags, Learn(tags, names))
    ensures forall i :: 0 <= i < |names| ==> names[i] in Learn(tags, names)
    decreases |names|
  {
    if names != [] {
      var next := if names[0] in tags then tags else tags + [names[0]];
      LearnExtends(next, names[1..]);
      forall n | n in tags ensures TagOf(next, n) == TagOf(tags, n) {
        if next != tags {
          TagStays(tags, [names[0]], n);
        }
      }
      forall i | 0 <= i < |names| ensures names[i] in Learn(tags, names) {
        if i > 0 {
          assert names[i] == names[1..][i - 1];
        }
      }
    }
  }

  lemma {:induction false} LearnConcat(tags: seq<Text>, a: seq<Text>, b: seq<Text>)
    ensures Learn(tags, a + b) == Learn(Learn(tags, a), b)
    decreases |a|
  {
    if a == [] {
      assert a + b == b;
    } else {
      assert (a + b)[1..] == a[1..] + b;
      LearnConcat(if a[0] in tags then tags else tags + [a[0]], a[1..], b);
    }
  }

  // Known names teach nothing.
  lemma LearnKnown(tags: seq<Text>, name: Text)
    ensures name in tags ==> Learn(tags, [name]) == tags
    ensures name !in tags ==> Learn(tags, [name]) == tags + [name]
  {
    assert [name][1..] == [];
  }

  // ---- bytes under a growing dictionary ----

  predicate KeysIn(tags: seq<Text>, ds: seq<Doc>)
    decreases ds, 2
  {
    ds != [] ==> KeyIn(tags, ds[0]) && KeysIn(tags, ds[1..])
  }

  predicate KeyIn(tags: seq<Text>, d: Doc)
    decreases d, 1
  {
    (d.key.Some? ==> d.key.value in tags) && KeysInBody(tags, d.body)
  }

  predicate KeysInBody(tags: seq<Text>, b: Body)
    decreases b, 0
  {
    match b
    case Objs(docs) => KeysIn(tags, docs)
    case Obj(fields) => KeysIn(tags, fields)
    case _ => true
  }

  lemma {:induction false} SameBytes(a: seq<Text>, b: seq<Text>, ds: seq<Doc>)
    requires Extends(a, b) && KeysIn(a, ds)
    ensures KeysIn(b, ds) && DocsBytes(b, ds) == DocsBytes(a, ds)
    decreases ds, 2
  {
    if ds != [] {
      SameDoc(a, b, ds[0]);
      SameBytes(a, b, ds[1..]);
    }
  }

  lemma {:induction false} SameDoc(a: seq<Text>, b: seq<Text>, d: Doc)
    requires Extends(a, b) && KeyIn(a, d)
    ensures KeyIn(b, d) && DocBytes(b, d) == DocBytes(a, d)
    decreases d, 1
  {
    SameBody(a, b, d.body);
  }

  lemma {:induction false} SameBody(a: seq<Text>, b: seq<Text>, body: Body)
    requires Extends(a, b) && KeysInBody(a, body)
    ensures KeysInBody(b, body) && BodyBytes(b, body) == BodyBytes(a, body)
    decreases body, 0
  {
    match body
    case Objs(docs) => SameBytes(a, b, docs);
    case Obj(fields) => SameBytes(a, b, fields);
    case _ =>
  }

  lemma {:induction false} KeysConcat(tags: seq<Text>, xs: seq<Doc>, ys: seq<Doc>)
    requires KeysIn(tags, xs) && KeysIn(tags, ys)
    ensures KeysIn(tags, xs + ys)
    decreases |xs|
  {
    if xs == [] {
      assert xs + ys == ys;
    } else {
      assert (xs + ys)[1..] == xs[1..] + ys;
      KeysConcat(tags, xs[1..], ys);
    }
  }

  // Documents written under a dictionary and its extension one after the other.
  lemma BytesInTurn(a: seq<Text>, b: seq<Text>, xs: seq<Doc>, ys: seq<Doc>)
    requires Extends(a, b) && KeysIn(a, xs) && KeysIn(b, ys)
    ensures KeysIn(b, xs + ys) && DocsBytes(a, xs) + DocsBytes(b, ys) == DocsBytes(b, xs + ys)
  {
    SameBytes(a, b, xs);
    KeysConcat(b, xs, ys);
    DocsBytesConcat(b, xs, ys);
  }

  // ---- ctagsWCache ----

  // fieldInfo, as mkFieldInfo makes it from a field and the tag of its name
  datatype Info = Info(name: nat, skip: bool, omit: bool, embedded: bool, ty: Ty)

  datatype WCache = WCache(entries: seq<WEntry>)
  datatype WEntry = WEntry(info: Option<Info>, sub: WCache)

  function MkInfo(f: Field, name: nat): Info { Info(name, f.skip, f.omitEmpty, f.embedded, f.ty) }

  // The type whose fields a cache is about.
  function Base(ty: Ty): Ty {
    match ty
    case TPtr(t) => Base(t)
    case TSlice(e) => Base(e)
    case TArray(_, e) => Base(e)
    case TMap(e) => Base(e)
    case _ => ty
  }

  predicate InfoOk(tags: seq<Text>, f: Field, info: Info) {
    (f.skip || f.name in tags) && info == MkInfo(f, if f.skip then 0 else TagOf(tags, f.name))
  }

  // What a cache may hold: what reflection and the committed dictionary say.
  predicate WCacheOk(tags: seq<Text>, ty: Ty, c: WCache)
    decreases c
  {
    Base(ty).TStruct? ==>
      && |c.entries| <= |Base(ty).fields|
      && forall i :: 0 <= i < |c.entries| ==> EntryOk(tags, Base(ty).fields[i], c.entries[i])
  }

  predicate EntryOk(tags: seq<Text>, f: Field, e: WEntry)
    decreases e
  {
    (e.info.Some? ==> InfoOk(tags, f, e.info.value)) && WCacheOk(tags, f.ty, e.sub)
  }

  // LookupField
  function LookupField(c: WCache, i: nat): (r: WCache)
    ensures |r.entries| == (if |c.entries| > i then |c.entries| else i + 1)
    ensures forall k :: 0 <= k < |r.entries| ==> r.entries[k] == if k < |c.entries| then c.entries[k] else WEntry(None, WCache([]))
    decreases i + 1 - |c.entries|
  {
    if |c.entries| > i then c else LookupField(WCache(c.entries + [WEntry(None, WCache([]))]), i)
  }

  // The documents and names of a field described by an Info.
  function EncInfo(key: Option<Text>, omit: bool, embedded: bool, ty: Ty, v: Value): seq<Doc> {
    if embedded && ty.TStruct? then (if |Fields(v)| == |ty.fields| then EncFields(ty, Fields(v), 0) else [])
    else Enc(key, omit, ty, v)
  }

  // ---- the frame of an item that brings new names ----

  function NamesBytes(names: seq<Text>): seq<byte> {
    if names == [] then [] else Bytes(|names[0]|) + names[0] + NamesBytes(names[1..])
  }

  function DictBytes(names: seq<Text>): seq<byte> { Bytes(|names|) + NamesBytes(names) }

  function Framed(payload: seq<byte>, dict: seq<byte>): seq<byte> { Header(|payload| + 5) + payload + dict }

  lemma FrameInTurn(before: seq<byte>, payload: seq<byte>, dict: seq<byte>)
    ensures before + Header(|payload| + 5) + payload + dict == before + Framed(payload, dict)
  {
    Assoc(before, Header(|payload| + 5), payload);
    Assoc(before, Header(|payload| + 5) + payload, dict);
  }

  class Encoder {
    var tags: seq<Text>      // state.tagsMatcher.Tags
    var work: seq<Text>      // enc.tagsMatcher.Tags
    var tmUpdated: bool
    const ser: Serializer

    constructor (tags: seq<Text>, ser: Serializer)
      requires ser.Valid()
      ensures Valid() && this.tags == tags && this.ser == ser
    {
      this.tags, this.work, this.tmUpdated, this.ser := tags, tags, false, ser;
    }

    ghost predicate Valid()
      reads this, ser
    {
      ser.Valid() && Extends(tags, work) && (if tmUpdated then |tags| < |work| else work == tags)
    }

    // name2tag: a first new name makes the encoder work on a copy of the dictionary.
    method Name2Tag(name: Text) returns (tag: nat)
      requires Valid()
      modifies this`work, this`tmUpdated
      ensures Valid() && work == Learn(old(work), [name])
      ensures tag == TagOf(work, name) > 0 && Extends(old(work), work)
      ensures !tmUpdated ==> work == old(work) && !old(tmUpdated)
    {
      LearnKnown(work, name);
      LearnExtends(work, [name]);
      tag := TagOf(work, name);
      if tag == 0 {
        tmUpdated := true;
        work := work + [name];
        tag := |work|;
      }
      assert Extends(tags, work);
    }

    method PutCTag(ty: nat, name: nat)
      requires ser.Valid()
      modifies ser, ser.arr
      ensures ser.Valid() && ser.Contents() == old(ser.Contents()) + Bytes(MkCTag(ty, name, 0))
      ensures ser.arr == old(ser.arr) || fresh(ser.arr)
    {
      ser.PutVarUInt(MkCTag(ty, name, 0));
    }

    method PutArrayTag(name: nat, count: nat, sub: nat)
      requires ser.Valid()
      modifies ser, ser.arr
      ensures ser.Valid() && ser.Contents() == old(ser.Contents()) + Bytes(MkCTag(ARRAY, name, 0)) + LE(MkCArrayTag(count, sub), 4)
      ensures ser.arr == old(ser.arr) || fresh(ser.arr)
    {
      PutCTag(ARRAY, name);
      ser.PutLE(MkCArrayTag(count, sub), 4);
    }

    // A tag and a scalar behind it.
    method PutTagged(name: nat, s: Scalar, ghost key: Option<Text>)
      requires Valid() && ScalarFits(s) && name == KeyTag(work, key) && (key.Some? ==> key.value in work)
      modifies ser, ser.arr
      ensures Wrote(old(ser.Contents()), work, [], [Doc(key, Sc(s))])
      ensures ser.arr == old(ser.arr) || fresh(ser.arr)
    {
      ghost var before := ser.Contents();
      PutCTag(ScalarTag(s), name);
      WriteScalar(ser, s);
      WrittenOne(work, before, Doc(key, Sc(s)));
    }

    method PutNull(name: nat, ghost key: Option<Text>)
      requires Valid() && name == KeyTag(work, key) && (key.Some? ==> key.value in work)
      modifies ser, ser.arr
      ensures Wrote(old(ser.Contents()), work, [], [Doc(key, Null)])
      ensures ser.arr == old(ser.arr) || fresh(ser.arr)
    {
      ghost var before := ser.Contents();
      PutCTag(NULL, name);
      assert ser.Contents() + [] == ser.Contents();
      WrittenOne(work, before, Doc(key, Null));
    }

    // Since the dictionary was w and the buffer held before: the names looked up and the
    // documents written.
    ghost predicate Wrote(before: seq<byte>, w: seq<Text>, names: seq<Text>, ds: seq<Doc>)
      reads this, ser, ser.arr
    {
      Valid() && Written(before, ser.Contents(), w, work, names, ds)
    }

    // What is known of field i: from the cache, or from reflection and then in the cache
    // too, unless the dictionary is already a copy. `sub` is the cache for its value.
    method FieldInfo(ty: Ty, i: nat, c: Option<WCache>) returns (info: Info, c': Option<WCache>, sub: Option<WCache>)
      requires Valid() && ty.TStruct? && i < |ty.fields| && (c.Some? ==> WCacheOk(tags, ty, c.value))
      modifies this`work, this`tmUpdated
      ensures Valid() && work == Learn(old(work), if ty.fields[i].skip then [] else [ty.fields[i].name])
      ensures Extends(old(work), work)
      ensures InfoOk(work, ty.fields[i], info)
      ensures c'.Some? == c.Some? && (c'.Some? ==> WCacheOk(tags, ty, c'.value))
      ensures sub.Some? ==> c'.Some? && i < |c'.value.entries| && WCacheOk(tags, ty.fields[i].ty, sub.value)
    {
      var f := ty.fields[i];
      c', sub := c, None;
      LearnKnown(work, f.name);
      if c.Some? && i < |c.value.entries| && c.value.entries[i].info.Some? {
        var e := c.value.entries[i];
        assert EntryOk(tags, f, e);
        info, sub := e.info.value, Some(e.sub);
        return;
      }
      var name := 0;
      if !f.skip {
        name := Name2Tag(f.name);
      }
      info := MkInfo(f, name);
      if c.Some? {
        var grown := LookupField(c.value, i);
        GrownOk(tags, ty, c.value, i);
        c' := Some(grown);
        if !tmUpdated {
          var e := grown.entries[i].(info := Some(info));
          assert EntryOk(tags, f, grown.entries[i]);
          assert EntryOk(tags, f, e);
          c', sub := Some(WCache(grown.entries[i := e])), Some(e.sub);
        }
      }
    }

    method EncodeStruct(ty: Ty, vs: seq<Value>, c: Option<WCache>) returns (ok: bool, c': Option<WCache>)
      requires Valid() && ty.TStruct? && Covered(ty) && HasType(ty, VStruct(vs))
      requires c.Some? ==> WCacheOk(tags, ty, c.value)
      modifies this`work, this`tmUpdated, ser, ser.arr
      ensures Valid() && (ok <==> EncodesFields(ty, vs, 0))
      ensures ok ==> Wrote(old(ser.Contents()), old(work), LooksFields(ty, vs, 0), EncFields(ty, vs, 0))
      ensures c'.Some? == c.Some? && (c'.Some? ==> WCacheOk(tags, ty, c'.value))
      ensures ser.arr == old(ser.arr) || fresh(ser.arr)
      decreases ty, 1, 0
    {
      ghost var w, before := work, ser.Contents();
      ghost var done: seq<Doc>, seen: seq<Text> := [], [];
      c' := c;
      var i := 0;
      AllFields(ty, vs, done, seen);
      WrittenNone(before, work);
      while i < |vs|
        invariant i <= |vs| && FieldsSoFar(ty, vs, i, done, seen)
        invariant Wrote(before, w, seen, done)
        invariant c'.Some? == c.Some? && (c'.Some? ==> WCacheOk(tags, ty, c'.value))
        invariant ser.arr == old(ser.arr) || fresh(ser.arr)
      {
        ghost var w1, mid := work, ser.Contents();
        ghost var names, ds := LooksField(ty.fields[i], vs[i]), EncField(ty.fields[i], vs[i]);
        NextField(ty, vs, i, done, seen);
        ok, c' := EncodeField(ty, i, vs[i], c');
        if !ok {
          return;
        }
        InTurn(before, mid, ser.Contents(), w, w1, work, seen, names, done, ds);
        done, seen, i := done + ds, seen + names, i + 1;
      }
      ok := true;
      AllFields(ty, vs, done, seen);
    }

    method EncodeField(ty: Ty, i: nat, v: Value, c: Option<WCache>) returns (ok: bool, c': Option<WCache>)
      requires Valid() && ty.TStruct? && Covered(ty) && i < |ty.fields| && HasType(ty.fields[i].ty, v)
      requires c.Some? ==> WCacheOk(tags, ty, c.value)
      modifies this`work, this`tmUpdated, ser, ser.arr
      ensures Valid() && (ok <==> EncodesField(ty.fields[i], v))
      ensures ok ==> Wrote(old(ser.Contents()), old(work), LooksField(ty.fields[i], v), EncField(ty.fields[i], v))
      ensures c'.Some? == c.Some? && (c'.Some? ==> WCacheOk(tags, ty, c'.value))
      ensures ser.arr == old(ser.arr) || fresh(ser.arr)
      decreases ty, 0
    {
      var info, sub;
      ghost var w := work;
      info, c', sub := FieldInfo(ty, i, c);
      WrittenNone(ser.Contents(), work);
      ok := true;
      if !info.skip {
        ok, sub := EncodeKnown(ty.fields[i], info, v, sub, w);
        if sub.Some? {
          SubStored(tags, ty, i, c'.value, sub.value);
          c' := Some(WCache(c'.value.entries[i := c'.value.entries[i].(sub := sub.value)]));
        }
      }
    }

    // The value of a field, its name having been looked up under the dictionary w.
    method EncodeKnown(f: Field, info: Info, v: Value, c: Option<WCache>, ghost w: seq<Text>) returns (ok: bool, c': Option<WCache>)
      requires Valid() && Covered(f.ty) && HasType(f.ty, v) && !f.skip && (f.embedded ==> f.ty.TStruct?)
      requires InfoOk(work, f, info) && work == Learn(w, [f.name]) && Extends(w, work)
      requires c.Some? ==> WCacheOk(tags, f.ty, c.value)
      modifies this`work, this`tmUpdated, ser, ser.arr
      ensures Valid() && (ok <==> EncodesField(f, v))
      ensures ok ==> Wrote(old(ser.Contents()), w, LooksField(f, v), EncField(f, v))
      ensures c'.Some? == c.Some? && (c'.Some? ==> WCacheOk(tags, f.ty, c'.value))
      ensures ser.arr == old(ser.arr) || fresh(ser.arr)
      decreases f.ty, 4
    {
      ghost var w1, before := work, ser.Contents();
      ok, c' := EncodeValue(info.name, info.omit, info.embedded, info.ty, v, c, Some(f.name));
      if ok {
        AfterName(before, ser.Contents(), w, w1, work, f.name, LooksInfo(f.omitEmpty, f.embedded, f.ty, v), EncField(f, v));
      }
    }

    method EncodeValue(name: nat, omit: bool, embedded: bool, ty: Ty, v: Value, c: Option<WCache>, ghost key: Option<Text>)
      returns (ok: bool, c': Option<WCache>)
      requires Valid() && Covered(ty) && HasType(ty, v) && (embedded ==> ty.TStruct?)
      requires name == KeyTag(work, key) && (key.Some? ==> key.value in work)
      requires c.Some? ==> WCacheOk(tags, ty, c.value)
      modifies this`work, this`tmUpdated, ser, ser.arr
      ensures Valid() && (ok <==> EncodesInfo(omit, embedded, ty, v))
      ensures ok ==> Wrote(old(ser.Contents()), old(work), LooksInfo(omit, embedded, ty, v), EncInfo(key, omit, embedded, ty, v))
      ensures c'.Some? == c.Some? && (c'.Some? ==> WCacheOk(tags, ty, c'.value))
      ensures ser.arr == old(ser.arr) || fresh(ser.arr)
      decreases ty, 3
    {
      ok, c' := true, c;
      WrittenNone(ser.Contents(), work);
      if Nullable(ty) && v.VNil? {
        if !omit {
          PutNull(name, key);
        }
      } else if ty.TPtr? {
        ok, c' := EncodeIn(name, omit, ty.to, v.to, c, key);
      } else if embedded {
        ok, c' := EncodeStruct(ty, v.fields, c);
      } else {
        ok, c' := EncodeIn(name, omit, ty, v, c, key);
      }
    }

    // encodeValue behind nil and pointer
    method EncodeIn(name: nat, omit: bool, ty: Ty, v: Value, c: Option<WCache>, ghost key: Option<Text>)
      returns (ok: bool, c': Option<WCache>)
      requires Valid() && Covered(ty) && HasType(ty, v) && !ty.TPtr?
      requires name == KeyTag(work, key) && (key.Some? ==> key.value in work)
      requires c.Some? ==> WCacheOk(tags, ty, c.value)
      modifies this`work, this`tmUpdated, ser, ser.arr
      ensures Valid() && (ok <==> EncodesIn(omit, ty, v))
      ensures ok ==> Wrote(old(ser.Contents()), old(work), LooksIn(omit, ty, v), EncIn(key, omit, ty, v))
      ensures c'.Some? == c.Some? && (c'.Some? ==> WCacheOk(tags, ty, c'.value))
      ensures ser.arr == old(ser.arr) || fresh(ser.arr)
      decreases ty, 2
    {
      ok, c' := true, c;
      match ty {
        case TSlice(_) => ok, c' := EncodeSlice(name, omit, ty, v, c, key);
        case TArray(_, _) => ok, c' := EncodeSlice(name, omit, ty, v, c, key);
        case TStruct(_) => ok, c' := EncodeObject(name, omit, ty, v, c, key);
        case TMap(_) => ok, c' := EncodeMapObject(name, omit, ty, v, c, key);
        case TPtr(_) => assert false;
        case _ => EncodeScalar(name, omit, ty, v, key);
      }
    }

    method EncodeScalar(name: nat, omit: bool, ty: Ty, v: Value, ghost key: Option<Text>)
      requires Valid() && Covered(ty) && HasType(ty, v) && IsScalar(ty)
      requires name == KeyTag(work, key) && (key.Some? ==> key.value in work)
      modifies ser, ser.arr
      ensures Wrote(old(ser.Contents()), old(work), LooksIn(omit, ty, v), EncIn(key, omit, ty, v))
      ensures ser.arr == old(ser.arr) || fresh(ser.arr)
    {
      WrittenNone(ser.Contents(), work);
      match ty {
        case TInt(_, _) =>
          if v.i != 0 || !omit {
            PutTagged(name, SVar(ToInt64(v.i)), key);
          }
        case TFloat32 =>
          if !ZeroFloat(v.bits, 0x8000_0000) || !omit {
            PutTagged(name, SDouble(Widen(v.bits)), key);
          }
        case TFloat64 =>
          if !ZeroFloat(v.bits, 0x8000_0000_0000_0000) || !omit {
            PutTagged(name, SDouble(v.bits), key);
          }
        case TBool =>
          if v.b || !omit {
            PutTagged(name, SBool(if v.b then 1 else 0), key);
          }
        case TString =>
          if |v.s| != 0 || !omit {
            PutTagged(name, SStr(v.s), key);
          }
        case _ =>
      }
    }

    // A struct between an object tag and an end tag.
    method EncodeObject(name: nat, omit: bool, ty: Ty, v: Value, c: Option<WCache>, ghost key: Option<Text>)
      returns (ok: bool, c': Option<WCache>)
      requires Valid() && Covered(ty) && HasType(ty, v) && ty.TStruct?
      requires name == KeyTag(work, key) && (key.Some? ==> key.value in work)
      requires c.Some? ==> WCacheOk(tags, ty, c.value)
      modifies this`work, this`tmUpdated, ser, ser.arr
      ensures Valid() && (ok <==> EncodesIn(omit, ty, v))
      ensures ok ==> Wrote(old(ser.Contents()), old(work), LooksIn(omit, ty, v), EncIn(key, omit, ty, v))
      ensures c'.Some? == c.Some? && (c'.Some? ==> WCacheOk(tags, ty, c'.value))
      ensures ser.arr == old(ser.arr) || fresh(ser.arr)
      decreases ty, 1, 1
    {
      ghost var w, before := work, ser.Contents();
      PutCTag(OBJECT, name);
      ok, c' := EncodeStruct(ty, v.fields, c);
      if ok {
        ghost var mid := ser.Contents();
        PutCTag(END, 0);
        ObjectDoc(before, mid, w, work, LooksFields(ty, v.fields, 0), key, EncFields(ty, v.fields, 0));
      }
    }

    // A map, likewise.
    method EncodeMapObject(name: nat, omit: bool, ty: Ty, v: Value, c: Option<WCache>, ghost key: Option<Text>)
      returns (ok: bool, c': Option<WCache>)
      requires Valid() && Covered(ty) && HasType(ty, v) && ty.TMap?
      requires name == KeyTag(work, key) && (key.Some? ==> key.value in work)
      requires c.Some? ==> WCacheOk(tags, ty, c.value)
      modifies this`work, this`tmUpdated, ser, ser.arr
      ensures Valid() && (ok <==> EncodesIn(omit, ty, v))
      ensures ok ==> Wrote(old(ser.Contents()), old(work), LooksIn(omit, ty, v), EncIn(key, omit, ty, v))
      ensures c'.Some? == c.Some? && (c'.Some? ==> WCacheOk(tags, ty, c'.value))
      ensures ser.arr == old(ser.arr) || fresh(ser.arr)
      decreases ty, 1, 1
    {
      ghost var w, before := work, ser.Contents();
      PutCTag(OBJECT, name);
      ok, c' := EncodeMap(ty, Entries(v), c);
      if ok {
        ghost var mid := ser.Contents();
        PutCTag(END, 0);
        ObjectDoc(before, mid, w, work, LooksEntries(ty.elem, Entries(v)), key, EncEntries(ty.elem, Entries(v)));
      }
    }

    method EncodeMap(ty: Ty, entries: seq<(Text, Value)>, c: Option<WCache>) returns (ok: bool, c': Option<WCache>)
      requires Valid() && ty.TMap? && Covered(ty.elem) && forall i :: 0 <= i < |entries| ==> HasType(ty.elem, entries[i].1)
      requires c.Some? ==> WCacheOk(tags, ty, c.value)
      modifies this`work, this`tmUpdated, ser, ser.arr
      ensures Valid() && (ok <==> EncodesEntries(ty.elem, entries))
      ensures ok ==> Wrote(old(ser.Contents()), old(work), LooksEntries(ty.elem, entries), EncEntries(ty.elem, entries))
      ensures c'.Some? == c.Some? && (c'.Some? ==> WCacheOk(tags, ty, c'.value))
      ensures ser.arr == old(ser.arr) || fresh(ser.arr)
      decreases ty, 1, 0
    {
      ghost var w, before := work, ser.Contents();
      ghost var done: seq<Doc>, seen: seq<Text> := [], [];
      c' := c;
      var i := 0;
      AllEntries(ty.elem, entries, done, seen);
      WrittenNone(before, work);
      while i < |entries|
        invariant i <= |entries| && EntriesSoFar(ty.elem, entries, i, done, seen)
        invariant Wrote(before, w, seen, done)
        invariant c'.Some? == c.Some? && (c'.Some? ==> WCacheOk(tags, ty, c'.value))
        invariant ser.arr == old(ser.arr) || fresh(ser.arr)
      {
        ghost var w1, mid := work, ser.Contents();
        ghost var names, ds := LooksEntry(ty.elem, entries[i]), EncEntry(ty.elem, entries[i]);
        NextEntry(ty.elem, entries, i, done, seen);
        ok, c' := EncodeEntry(ty, entries[i].0, entries[i].1, c');
        if !ok {
          return;
        }
        InTurn(before, mid, ser.Contents(), w, w1, work, seen, names, done, ds);
        done, seen, i := done + ds, seen + names, i + 1;
      }
      ok := true;
      AllEntries(ty.elem, entries, done, seen);
    }

    method EncodeEntry(ty: Ty, key: Text, v: Value, c: Option<WCache>) returns (ok: bool, c': Option<WCache>)
      requires Valid() && ty.TMap? && Covered(ty.elem) && HasType(ty.elem, v)
      requires c.Some? ==> WCacheOk(tags, ty, c.value)
      modifies this`work, this`tmUpdated, ser, ser.arr
      ensures Valid() && (ok <==> Encodes(false, ty.elem, v))
      ensures ok ==> Wrote(old(ser.Contents()), old(work), LooksEntry(ty.elem, (key, v)), EncEntry(ty.elem, (key, v)))
      ensures c'.Some? == c.Some? && (c'.Some? ==> WCacheOk(tags, ty, c'.value))
      ensures ser.arr == old(ser.arr) || fresh(ser.arr)
      decreases ty.elem, 4
    {
      ghost var w, before := work, ser.Contents();
      var name := Name2Tag(key);
      ghost var w1 := work;
      PlainInfo(Some(key), false, ty.elem, v);
      SameBase(tags, ty, ty.elem);
      ok, c' := EncodeValue(name, false, false, ty.elem, v, c, Some(key));
      if ok {
        AfterName(before, ser.Contents(), w, w1, work, key, Looks(false, ty.elem, v), EncEntry(ty.elem, (key, v)));
      }
    }

    // encodeSlice, of slices and fixed-size arrays
    method EncodeSlice(name: nat, omit: bool, ty: Ty, v: Value, c: Option<WCache>, ghost key: Option<Text>)
      returns (ok: bool, c': Option<WCache>)
      requires Valid() && Covered(ty) && HasType(ty, v) && (ty.TSlice? || ty.TArray?)
      requires name == KeyTag(work, key) && (key.Some? ==> key.value in work)
      requires c.Some? ==> WCacheOk(tags, ty, c.value)
      modifies this`work, this`tmUpdated, ser, ser.arr
      ensures Valid() && (ok <==> EncodesIn(omit, ty, v))
      ensures ok ==> Wrote(old(ser.Contents()), old(work), LooksIn(omit, ty, v), EncIn(key, omit, ty, v))
      ensures c'.Some? == c.Some? && (c'.Some? ==> WCacheOk(tags, ty, c'.value))
      ensures ser.arr == old(ser.arr) || fresh(ser.arr)
      decreases ty, 1
    {
      ok, c' := true, c;
      WrittenNone(ser.Contents(), work);
      if |Elems(v)| == 0 && omit {
      } else if IsScalar(ty.elem) {
        ok := EncodeScalarList(name, ty, v, key);
      } else {
        ok, c' := EncodeObjectList(name, ty, Elems(v), c, key);
      }
    }

    // Scalars are taken from the memory of the list, which a nil slice has none of.
    method EncodeScalarList(name: nat, ty: Ty, v: Value, ghost key: Option<Text>) returns (ok: bool)
      requires Valid() && (ty.TSlice? || ty.TArray?) && IsScalar(ty.elem) && Covered(ty.elem) && HasType(ty, v)
      requires name == KeyTag(work, key) && (key.Some? ==> key.value in work)
      modifies ser, ser.arr
      ensures Valid() && (ok <==> !v.VNil?)
      ensures ok ==>
        Wrote(old(ser.Contents()), work, [], [Doc(key, Arr(SubTag(ty.elem), EncScalars(ty.elem, ty.TArray?, Elems(v))))])
      ensures ser.arr == old(ser.arr) || fresh(ser.arr)
    {
      ghost var before := ser.Contents();
      PutArrayTag(name, |Elems(v)|, SubTag(ty.elem));
      ok := !v.VNil?;
      if ok {
        WriteScalars(ser, ty.elem, ty.TArray?, v.elems);
        ArrayDoc(work, before, key, Arr(SubTag(ty.elem), EncScalars(ty.elem, ty.TArray?, v.elems)));
      }
    }

    method EncodeObjectList(name: nat, ty: Ty, vs: seq<Value>, c: Option<WCache>, ghost key: Option<Text>)
      returns (ok: bool, c': Option<WCache>)
      requires Valid() && (ty.TSlice? || ty.TArray?) && Covered(ty.elem)
      requires forall i :: 0 <= i < |vs| ==> HasType(ty.elem, vs[i])
      requires name == KeyTag(work, key) && (key.Some? ==> key.value in work)
      requires c.Some? ==> WCacheOk(tags, ty, c.value)
      modifies this`work, this`tmUpdated, ser, ser.arr
      ensures Valid() && (ok <==> EncodesElems(ty.elem, vs))
      ensures ok ==> Wrote(old(ser.Contents()), old(work), LooksElems(ty.elem, vs), [Doc(key, Objs(EncElems(ty.elem, vs)))])
      ensures c'.Some? == c.Some? && (c'.Some? ==> WCacheOk(tags, ty, c'.value))
      ensures ser.arr == old(ser.arr) || fresh(ser.arr)
      decreases ty.elem, 5
    {
      ghost var w, before := work, ser.Contents();
      PutArrayTag(name, |vs|, OBJECT);
      ok, c' := EncodeElems(ty, vs, c);
      if ok {
        ObjsDoc(before, ser.Contents(), w, work, LooksElems(ty.elem, vs), key, ty.elem, vs);
      }
    }

    method EncodeElem(ty: Ty, v: Value, c: Option<WCache>) returns (ok: bool, c': Option<WCache>)
      requires Valid() && (ty.TSlice? || ty.TArray?) && Covered(ty.elem) && HasType(ty.elem, v)
      requires c.Some? ==> WCacheOk(tags, ty, c.value)
      modifies this`work, this`tmUpdated, ser, ser.arr
      ensures Valid() && (ok <==> Encodes(false, ty.elem, v))
      ensures ok ==> Wrote(old(ser.Contents()), old(work), Looks(false, ty.elem, v), Enc(None, false, ty.elem, v))
      ensures c'.Some? == c.Some? && (c'.Some? ==> WCacheOk(tags, ty, c'.value))
      ensures ser.arr == old(ser.arr) || fresh(ser.arr)
      decreases ty.elem, 4, 0
    {
      PlainInfo(None, false, ty.elem, v);
      SameBase(tags, ty, ty.elem);
      ok, c' := EncodeValue(0, false, false, ty.elem, v, c, None);
    }

    method EncodeElems(ty: Ty, vs: seq<Value>, c: Option<WCache>) returns (ok: bool, c': Option<WCache>)
      requires Valid() && (ty.TSlice? || ty.TArray?) && Covered(ty.elem)
      requires forall i :: 0 <= i < |vs| ==> HasType(ty.elem, vs[i])
      requires c.Some? ==> WCacheOk(tags, ty, c.value)
      modifies this`work, this`tmUpdated, ser, ser.arr
      ensures Valid() && (ok <==> EncodesElems(ty.elem, vs))
      ensures ok ==> Wrote(old(ser.Contents()), old(work), LooksElems(ty.elem, vs), EncElems(ty.elem, vs))
      ensures c'.Some? == c.Some? && (c'.Some? ==> WCacheOk(tags, ty, c'.value))
      ensures ser.arr == old(ser.arr) || fresh(ser.arr)
      decreases ty.elem, 4, 1
    {
      ghost var w, before := work, ser.Contents();
      ghost var done: seq<Doc>, seen: seq<Text> := [], [];
      c' := c;
      var i := 0;
      AllElems(ty.elem, vs, done, seen);
      WrittenNone(before, work);
      while i < |vs|
        invariant i <= |vs| && ElemsSoFar(ty.elem, vs, i, done, seen)
        invariant Wrote(before, w, seen, done)
        invariant c'.Some? == c.Some? && (c'.Some? ==> WCacheOk(tags, ty, c'.value))
        invariant ser.arr == old(ser.arr) || fresh(ser.arr)
      {
        ghost var w1, mid := work, ser.Contents();
        ghost var names, ds := Looks(false, ty.elem, vs[i]), Enc(None, false, ty.elem, vs[i]);
        NextElem(ty.elem, vs, i, done, seen);
        ok, c' := EncodeElem(ty, vs[i], c');
        if !ok {
          return;
        }
        InTurn(before, mid, ser.Contents(), w, w1, work, seen, names, done, ds);
        done, seen, i := done + ds, seen + names, i + 1;
      }
      ok := true;
      AllElems(ty.elem, vs, done, seen);
    }

    // EncodeRaw: new names are committed to the dictionary, unless the encoder panics.
    method EncodeRaw(ty: Ty, v: Value, c: WCache) returns (ok: bool, c': WCache)
      requires ser.Valid() && Covered(ty) && HasType(ty, v) && WCacheOk(tags, ty, c)
      modifies this, ser, ser.arr
      ensures ser.Valid() && WCacheOk(tags, ty, c') && (ok <==> Encodes(false, ty, v))
      ensures ok ==> tags == Learn(old(tags), Looks(false, ty, v)) && KeysIn(tags, Enc(None, false, ty, v))
      ensures ok ==> ser.Contents() == old(ser.Contents()) + DocsBytes(tags, Enc(None, false, ty, v))
      ensures !ok ==> tags == old(tags)
    {
      tmUpdated, work := false, tags;
      var r;
      ok, r := EncodeValue(0, false, false, ty, v, Some(c), None);
      c' := r.value;
      if ok {
        CacheStays(tags, work, ty, c');
        if tmUpdated {
          tags := work;
        }
      }
    }

    // Encode: new names travel with the item, in a frame around it.
    method Encode(ty: Ty, v: Value, c: WCache) returns (ok: bool, c': WCache)
      requires ser.Valid() && Covered(ty) && HasType(ty, v) && WCacheOk(tags, ty, c)
      requires |Learn(tags, Looks(false, ty, v))| < 0x1_0000_0000_0000_0000
      modifies this, ser, ser.arr
      ensures tags == old(tags) && WCacheOk(tags, ty, c') && ser.Valid() && (ok <==> Encodes(false, ty, v))
      ensures ok ==>
        var learnt, ds := Learn(tags, Looks(false, ty, v)), Enc(None, false, ty, v);
        && KeysIn(learnt, ds)
        && ser.Contents() == old(ser.Contents())
             + (if learnt == tags then DocsBytes(tags, ds) else Framed(DocsBytes(learnt, ds), DictBytes(learnt)))
    {
      var at := ser.len;
      ghost var before := ser.Contents();
      tmUpdated, work := false, tags;
      var r;
      ok, r := EncodeValue(0, false, false, ty, v, Some(c), None);
      c' := r.value;
      if ok && tmUpdated {
        ghost var payload := DocsBytes(work, Enc(None, false, ty, v));
        assert ser.Contents()[..at] == before && ser.Contents()[at..] == payload;
        Bundle(at);
      }
    }

    method Bundle(at: nat)
      requires ser.Valid() && at <= ser.len && |work| < 0x1_0000_0000_0000_0000
      modifies ser, ser.arr
      ensures ser.Valid()
      ensures ser.Contents() == old(ser.Contents())[..at] + Framed(old(ser.Contents())[at..], DictBytes(work))
    {
      ghost var before := ser.Contents();
      ser.Frame(at);
      WriteUpdated();
      FrameInTurn(before[..at], before[at..], DictBytes(work));
    }

    // tagsMatcher.WriteUpdated
    method WriteUpdated()
      requires ser.Valid() && |work| < 0x1_0000_0000_0000_0000
      modifies ser, ser.arr
      ensures ser.Valid() && ser.Contents() == old(ser.Contents()) + DictBytes(work)
      ensures ser.arr == old(ser.arr) || fresh(ser.arr)
    {
      ghost var before := ser.Contents();
      ser.PutVarUInt(|work|);
      ghost var head, done: seq<byte> := ser.Contents(), [];
      var i := 0;
      while i < |work|
        invariant i <= |work| && ser.Valid()
        invariant ser.Contents() == head + done
        invariant done + NamesBytes(work[i..]) == NamesBytes(work)
        invariant ser.arr == old(ser.arr) || fresh(ser.arr)
      {
        ser.PutVString(work[i]);
        ghost var one := Bytes(|work[i]|) + work[i];
        Assoc(head + done, Bytes(|work[i]|), work[i]);
        Assoc(head, done, one);
        assert work[i..][1..] == work[i + 1..];
        Assoc(done, one, NamesBytes(work[i + 1..]));
        done := done + one;
        i := i + 1;
      }
      assert done + [] == done;
      Assoc(before, Bytes(|work|), NamesBytes(work));
    }
  }

  lemma OneDoc(tags: seq<Text>, before: seq<byte>, d: Doc)
    ensures before + Bytes(MkCTag(BodyTag(d.body), KeyTag(tags, d.key), BodyField(d.body))) + BodyBytes(tags, d.body)
         == before + DocsBytes(tags, [d])
  {
    Assoc(before, Bytes(MkCTag(BodyTag(d.body), KeyTag(tags, d.key), BodyField(d.body))), BodyBytes(tags, d.body));
    assert [d][1..] == [];
  }

  // From `before` to `now` the documents were written and the names looked up, the
  // dictionary going from w to w'.
  ghost predicate Written(before: seq<byte>, now: seq<byte>, w: seq<Text>, w': seq<Text>, names: seq<Text>, ds: seq<Doc>) {
    w' == Learn(w, names) && Extends(w, w') && KeysIn(w', ds) && now == before + DocsBytes(w', ds)
  }

  lemma WrittenNone(before: seq<byte>, w: seq<Text>)
    ensures Written(before, before, w, w, [], [])
  {
    LearnExtends(w, []);
    assert before + [] == before;
  }

  lemma WrittenOne(w: seq<Text>, before: seq<byte>, d: Doc)
    requires KeyIn(w, d)
    ensures Written(before, before + Bytes(MkCTag(BodyTag(d.body), KeyTag(w, d.key), BodyField(d.body))) + BodyBytes(w, d.body),
                    w, w, [], [d])
  {
    LearnExtends(w, []);
    OneDoc(w, before, d);
    assert |[d][1..]| == 0;
  }

  // Two stretches of writing are one.
  lemma InTurn(
    before: seq<byte>, mid: seq<byte>, now: seq<byte>, w0: seq<Text>, w1: seq<Text>, w2: seq<Text>,
    names: seq<Text>, more: seq<Text>, xs: seq<Doc>, ys: seq<Doc>)
    requires Written(before, mid, w0, w1, names, xs) && Written(mid, now, w1, w2, more, ys)
    ensures Written(before, now, w0, w2, names + more, xs + ys)
  {
    LearnConcat(w0, names, more);
    BytesInTurn(w1, w2, xs, ys);
    Assoc(before, DocsBytes(w1, xs), DocsBytes(w2, ys));
  }

  lemma AfterName(
    before: seq<byte>, now: seq<byte>, w0: seq<Text>, w1: seq<Text>, w2: seq<Text>, name: Text, more: seq<Text>, ys: seq<Doc>)
    requires w1 == Learn(w0, [name]) && Extends(w0, w1) && Written(before, now, w1, w2, more, ys)
    ensures Written(before, now, w0, w2, [name] + more, ys)
  {
    LearnConcat(w0, [name], more);
  }

  lemma Assoc3<T>(a: seq<T>, b: seq<T>, c: seq<T>)
    ensures a + b + c == a + (b + c)
  {
  }

  // The fields before i have given the documents `done` and the names `seen`.
  ghost predicate FieldsSoFar(ty: Ty, vs: seq<Value>, i: nat, done: seq<Doc>, seen: seq<Text>)
    requires ty.TStruct? && |vs| == |ty.fields| && i <= |vs|
  {
    && (EncodesFields(ty, vs, 0) <==> EncodesFields(ty, vs, i))
    && done + EncFields(ty, vs, i) == EncFields(ty, vs, 0)
    && seen + LooksFields(ty, vs, i) == LooksFields(ty, vs, 0)
  }

  lemma NextField(ty: Ty, vs: seq<Value>, i: nat, done: seq<Doc>, seen: seq<Text>)
    requires ty.TStruct? && |vs| == |ty.fields| && i < |vs| && FieldsSoFar(ty, vs, i, done, seen)
    ensures EncodesField(ty.fields[i], vs[i]) ==>
      FieldsSoFar(ty, vs, i + 1, done + EncField(ty.fields[i], vs[i]), seen + LooksField(ty.fields[i], vs[i]))
    ensures !EncodesField(ty.fields[i], vs[i]) ==> !EncodesFields(ty, vs, 0)
  {
    Assoc3(done, EncField(ty.fields[i], vs[i]), EncFields(ty, vs, i + 1));
    Assoc3(seen, LooksField(ty.fields[i], vs[i]), LooksFields(ty, vs, i + 1));
  }

  lemma AllFields(ty: Ty, vs: seq<Value>, done: seq<Doc>, seen: seq<Text>)
    requires ty.TStruct? && |vs| == |ty.fields|
    ensures FieldsSoFar(ty, vs, 0, [], [])
    ensures FieldsSoFar(ty, vs, |vs|, done, seen) ==>
      EncodesFields(ty, vs, 0) && done == EncFields(ty, vs, 0) && seen == LooksFields(ty, vs, 0)
  {
    assert [] + EncFields(ty, vs, 0) == EncFields(ty, vs, 0) && [] + LooksFields(ty, vs, 0) == LooksFields(ty, vs, 0);
    assert done + [] == done && seen + [] == seen;
  }

  function LooksEntry(e: Ty, entry: (Text, Value)): seq<Text> { [entry.0] + Looks(false, e, entry.1) }

  function EncEntry(e: Ty, entry: (Text, Value)): seq<Doc> { Enc(Some(entry.0), false, e, entry.1) }

  // The same of entries and elements.
  ghost predicate EntriesSoFar(e: Ty, entries: seq<(Text, Value)>, i: nat, done: seq<Doc>, seen: seq<Text>)
    requires i <= |entries|
  {
    && (EncodesEntries(e, entries) <==> EncodesEntries(e, entries[i..]))
    && done + EncEntries(e, entries[i..]) == EncEntries(e, entries)
    && seen + LooksEntries(e, entries[i..]) == LooksEntries(e, entries)
  }

  lemma NextEntry(e: Ty, entries: seq<(Text, Value)>, i: nat, done: seq<Doc>, seen: seq<Text>)
    requires i < |entries| && EntriesSoFar(e, entries, i, done, seen)
    ensures Encodes(false, e, entries[i].1) ==>
      EntriesSoFar(e, entries, i + 1, done + EncEntry(e, entries[i]), seen + LooksEntry(e, entries[i]))
    ensures !Encodes(false, e, entries[i].1) ==> !EncodesEntries(e, entries)
  {
    assert entries[i..][1..] == entries[i + 1..];
    Assoc3(done, EncEntry(e, entries[i]), EncEntries(e, entries[i + 1..]));
    Assoc3(seen, LooksEntry(e, entries[i]), LooksEntries(e, entries[i + 1..]));
  }

  lemma AllEntries(e: Ty, entries: seq<(Text, Value)>, done: seq<Doc>, seen: seq<Text>)
    ensures EntriesSoFar(e, entries, 0, [], [])
    ensures EntriesSoFar(e, entries, |entries|, done, seen) ==>
      EncodesEntries(e, entries) && done == EncEntries(e, entries) && seen == LooksEntries(e, entries)
  {
    assert entries[0..] == entries;
    assert [] + EncEntries(e, entries) == EncEntries(e, entries) && [] + LooksEntries(e, entries) == LooksEntries(e, entries);
    assert done + [] == done && seen + [] == seen;
  }

  ghost predicate ElemsSoFar(e: Ty, vs: seq<Value>, i: nat, done: seq<Doc>, seen: seq<Text>)
    requires i <= |vs|
  {
    && (EncodesElems(e, vs) <==> EncodesElems(e, vs[i..]))
    && done + EncElems(e, vs[i..]) == EncElems(e, vs)
    && seen + LooksElems(e, vs[i..]) == LooksElems(e, vs)
  }

  lemma NextElem(e: Ty, vs: seq<Value>, i: nat, done: seq<Doc>, seen: seq<Text>)
    requires i < |vs| && ElemsSoFar(e, vs, i, done, seen)
    ensures Encodes(false, e, vs[i]) ==>
      ElemsSoFar(e, vs, i + 1, done + Enc(None, false, e, vs[i]), seen + Looks(false, e, vs[i]))
    ensures !Encodes(false, e, vs[i]) ==> !EncodesElems(e, vs)
  {
    assert vs[i..][1..] == vs[i + 1..];
    Assoc3(done, Enc(None, false, e, vs[i]), EncElems(e, vs[i + 1..]));
    Assoc3(seen, Looks(false, e, vs[i]), LooksElems(e, vs[i + 1..]));
  }

  lemma AllElems(e: Ty, vs: seq<Value>, done: seq<Doc>, seen: seq<Text>)
    ensures ElemsSoFar(e, vs, 0, [], [])
    ensures ElemsSoFar(e, vs, |vs|, done, seen) ==>
      EncodesElems(e, vs) && done == EncElems(e, vs) && seen == LooksElems(e, vs)
  {
    assert vs[0..] == vs;
    assert [] + EncElems(e, vs) == EncElems(e, vs) && [] + LooksElems(e, vs) == LooksElems(e, vs);
    assert done + [] == done && seen + [] == seen;
  }

  lemma PlainInfo(key: Option<Text>, omit: bool, ty: Ty, v: Value)
    ensures LooksInfo(omit, false, ty, v) == Looks(omit, ty, v) && EncInfo(key, omit, false, ty, v) == Enc(key, omit, ty, v)
    ensures EncodesInfo(omit, false, ty, v) == Encodes(omit, ty, v)
  {
  }

  // Caches for a list or a map are those for its elements.
  lemma SameBase(tags: seq<Text>, a: Ty, b: Ty)
    requires Base(a) == Base(b)
    ensures forall c :: WCacheOk(tags, a, c) <==> WCacheOk(tags, b, c)
  {
  }

  lemma SubStored(tags: seq<Text>, ty: Ty, i: nat, c: WCache, sub: WCache)
    requires ty.TStruct? && i < |c.entries| && WCacheOk(tags, ty, c) && WCacheOk(tags, ty.fields[i].ty, sub)
    ensures WCacheOk(tags, ty, WCache(c.entries[i := c.entries[i].(sub := sub)]))
  {
    assert EntryOk(tags, ty.fields[i], c.entries[i]);
    assert EntryOk(tags, ty.fields[i], c.entries[i].(sub := sub));
  }

  lemma GrownOk(tags: seq<Text>, ty: Ty, c: WCache, i: nat)
    requires ty.TStruct? && i < |ty.fields| && WCacheOk(tags, ty, c)
    ensures WCacheOk(tags, ty, LookupField(c, i))
  {
    var grown := LookupField(c, i);
    forall k | 0 <= k < |grown.entries| ensures EntryOk(tags, ty.fields[k], grown.entries[k]) {
      assert k < |c.entries| ==> EntryOk(tags, ty.fields[k], c.entries[k]);
    }
  }

  lemma {:induction false} ElemsLength(e: Ty, vs: seq<Value>)
    requires Covered(e) && forall i :: 0 <= i < |vs| ==> HasType(e, vs[i])
    ensures |EncElems(e, vs)| == |vs|
  {
    if vs != [] {
      CjsonRoundTrip.EncOne(None, e, vs[0]);
      ElemsLength(e, vs[1..]);
    }
  }

  // An object: tag, contents, end tag.
  lemma ObjectDoc(
    before: seq<byte>, mid: seq<byte>, w: seq<Text>, w': seq<Text>, names: seq<Text>, key: Option<Text>, ds: seq<Doc>)
    requires Written(before + Bytes(MkCTag(OBJECT, KeyTag(w, key), 0)), mid, w, w', names, ds)
    requires key.Some? ==> key.value in w
    ensures Written(before, mid + Bytes(MkCTag(END, 0, 0)), w, w', names, [Doc(key, Obj(ds))])
  {
    Assoc(before + Bytes(MkCTag(OBJECT, KeyTag(w, key), 0)), DocsBytes(w', ds), Bytes(MkCTag(END, 0, 0)));
    OneDoc(w', before, Doc(key, Obj(ds)));
    assert |[Doc(key, Obj(ds))][1..]| == 0;
  }

  lemma ObjsDoc(
    before: seq<byte>, now: seq<byte>, w: seq<Text>, w': seq<Text>, names: seq<Text>, key: Option<Text>, e: Ty, vs: seq<Value>)
    requires Covered(e) && (key.Some? ==> key.value in w) && forall i :: 0 <= i < |vs| ==> HasType(e, vs[i])
    requires Written(before + Bytes(MkCTag(ARRAY, KeyTag(w, key), 0)) + LE(MkCArrayTag(|vs|, OBJECT), 4), now,
                     w, w', names, EncElems(e, vs))
    ensures Written(before, now, w, w', names, [Doc(key, Objs(EncElems(e, vs)))])
  {
    var ds := EncElems(e, vs);
    ElemsLength(e, vs);
    Assoc(before + Bytes(MkCTag(ARRAY, KeyTag(w, key), 0)), LE(MkCArrayTag(|ds|, OBJECT), 4), DocsBytes(w', ds));
    OneDoc(w', before, Doc(key, Objs(ds)));
    assert |[Doc(key, Objs(ds))][1..]| == 0;
  }

  lemma ArrayDoc(w: seq<Text>, before: seq<byte>, key: Option<Text>, b: Body)
    requires b.Arr? && (key.Some? ==> key.value in w)
    ensures Written(before, before + Bytes(MkCTag(ARRAY, KeyTag(w, key), 0)) + LE(MkCArrayTag(|b.elems|, b.tag), 4) + ScalarsBytes(b.elems),
                    w, w, [], [Doc(key, b)])
  {
    Assoc(before + Bytes(MkCTag(ARRAY, KeyTag(w, key), 0)), LE(MkCArrayTag(|b.elems|, b.tag), 4), ScalarsBytes(b.elems));
    WrittenOne(w, before, Doc(key, b));
  }

  lemma {:induction false} CacheStays(a: seq<Text>, b: seq<Text>, ty: Ty, c: WCache)
    requires Extends(a, b) && WCacheOk(a, ty, c)
    ensures WCacheOk(b, ty, c)
    decreases c
  {
    if Base(ty).TStruct? {
      forall i | 0 <= i < |c.entries| ensures EntryOk(b, Base(ty).fields[i], c.entries[i]) {
        assert EntryOk(a, Base(ty).fields[i], c.entries[i]);
        EntryStays(a, b, Base(ty).fields[i], c.entries[i]);
      }
    }
  }

  lemma {:induction false} EntryStays(a: seq<Text>, b: seq<Text>, f: Field, e: WEntry)
    requires Extends(a, b) && EntryOk(a, f, e)
    ensures EntryOk(b, f, e)
    decreases e
  {
    CacheStays(a, b, f.ty, e.sub);
  }
}
