// The decoder of cjson/decoder.go, reading bytes: proved against the decoding of trees.

module CjsonDecoder {
  import opened Wrappers
  import opened Varint
  import opened CTags
  import opened CTagsCache
  import opened CjsonWire
  import opened GoTypes
  import opened CjsonCodec
  import opened CjsonSerializer

  // ---- reading back what the wire functions write ----

  function DocTag(tags: seq<Text>, d: Doc): nat { MkCTag(BodyTag(d.body), KeyTag(tags, d.key), BodyField(d.body)) }

  lemma ReadNumber(v: nat, tail: seq<byte>, rest: seq<byte>)
    requires v < 0x1_0000_0000_0000_0000 && rest == Bytes(v) + tail
    ensures Read(rest) == (v, |Bytes(v)|) && rest[|Bytes(v)|..] == tail
  {
    ReadsBack(v, tail);
  }

  lemma ReadLE(v: nat, k: nat, tail: seq<byte>, rest: seq<byte>)
    requires v < Pow256(k) && rest == LE(v, k) + tail
    ensures |rest| >= k && FromLE(rest[..k]) == v && rest[k..] == tail
  {
    assert rest[..k] == LE(v, k);
    LEInverse(v, k);
  }

  lemma Pow256Of(k: nat)
    ensures Pow256(4) == 0x1_0000_0000 && Pow256(8) == 0x1_0000_0000_0000_0000
  {
    assert Pow256(4) == 0x1_0000_0000;
    assert Pow256(6) == 0x1_0000_0000_0000;
  }

  lemma ReadString(s: Text, tail: seq<byte>, rest: seq<byte>)
    requires |s| < 0x8000_0000_0000_0000 && rest == Bytes(|s|) + s + tail
    ensures var n := |Bytes(|s|)|;
      && Read(rest) == (|s|, n) && n + |s| <= |rest|
      && rest[n..n + |s|] == s && rest[n + |s|..] == tail
      && rest[n..][..|s|] == s && rest[n..][|s|..] == tail
  {
    var n := |Bytes(|s|)|;
    assert rest == Bytes(|s|) + (s + tail);
    ReadNumber(|s|, s + tail, rest);
    assert rest[n..][..|s|] == s && rest[n..][|s|..] == tail;
  }

  lemma Small(n: nat)
    requires n < 0x8000_0000_0000_0000
    ensures ToInt64(n) == n
  {
  }

  lemma ReadUuid(hi: nat, lo: nat, tail: seq<byte>, rest: seq<byte>)
    requires hi < 0x1_0000_0000_0000_0000 && lo < 0x1_0000_0000_0000_0000 && rest == LE(hi, 8) + LE(lo, 8) + tail
    ensures |rest| >= 16 && FromLE(rest[..8]) == hi && FromLE(rest[8..][..8]) == lo && rest[8..][8..] == tail
  {
    Pow256Of(8);
    assert rest == LE(hi, 8) + (LE(lo, 8) + tail);
    ReadLE(hi, 8, LE(lo, 8) + tail, rest);
    ReadLE(lo, 8, tail, rest[8..]);
  }

  lemma DocTagFields(tags: seq<Text>, d: Doc)
    requires DocFits(tags, d)
    ensures var t := DocTag(tags, d);
      t < 0x1_0000_0000 && Type(t) == BodyTag(d.body) && Name(t) == KeyTag(tags, d.key) && FieldOf(t) == BodyField(d.body) - 1
  {
    CTagFields(BodyTag(d.body), KeyTag(tags, d.key), BodyField(d.body));
  }

  lemma EndTag()
    ensures Type(MkCTag(END, 0, 0)) == END && MkCTag(END, 0, 0) < 0x1_0000_0000
  {
    CTagFields(END, 0, 0);
  }

  lemma {:induction false} ReadBound(s: seq<byte>, i: nat, x: nat)
    requires i <= |s|
    ensures ReadFrom(s, i, x).1 <= |s|
    decreases |s| - i
  {
    if i < |s| && i != 10 && s[i] >= 128 {
      var y := x + s[i] % 128 * Pow128(i);
      ReadBound(s, i + 1, y);
      assert ReadFrom(s, i, x) == ReadFrom(s, i + 1, y);
    }
  }

  // The tag is that of a body, and the bytes are the body's and then tail.
  predicate BodyAt(tags: seq<Text>, b: Body, tag: nat, rest: seq<byte>, tail: seq<byte>) {
    BodyFits(tags, b) && Type(tag) == BodyTag(b) && FieldOf(tag) == BodyField(b) - 1 && rest == BodyBytes(tags, b) + tail
  }

  predicate TaggedAt(tags: seq<Text>, d: Doc, tag: nat, rest: seq<byte>, tail: seq<byte>) {
    DocFits(tags, d) && Name(tag) == KeyTag(tags, d.key) && BodyAt(tags, d.body, tag, rest, tail)
  }

  // The bytes are those of a document, or of the end of an object, and then tail.
  predicate DocAt(tags: seq<Text>, d: Option<Doc>, rest: seq<byte>, tail: seq<byte>) {
    match d
    case Some(doc) => DocFits(tags, doc) && rest == DocBytes(tags, doc) + tail
    case None => rest == EndBytes() + tail
  }

  lemma EnterEnd(rest: seq<byte>, tail: seq<byte>)
    requires rest == EndBytes() + tail
    ensures var (tag, n) := Read(rest); 0 < n <= |rest| && Type(tag) == END && rest[n..] == tail
  {
    EndTag();
    ReadNumber(MkCTag(END, 0, 0), tail, rest);
  }

  lemma EnterBody(tags: seq<Text>, doc: Doc, rest: seq<byte>, tail: seq<byte>)
    requires DocFits(tags, doc) && rest == DocBytes(tags, doc) + tail
    ensures var (tag, n) := Read(rest);
      0 < n <= |rest| && Name(tag) == KeyTag(tags, doc.key) && BodyAt(tags, doc.body, tag, rest[n..], tail)
  {
    var t := DocTag(tags, doc);
    DocTagFields(tags, doc);
    TagThen(t, BodyBytes(tags, doc.body), tail, rest);
  }

  lemma TagThen(t: nat, body: seq<byte>, tail: seq<byte>, rest: seq<byte>)
    requires t < 0x1_0000_0000 && rest == Bytes(t) + body + tail
    ensures Read(rest) == (t, |Bytes(t)|) && |Bytes(t)| <= |rest| && rest[|Bytes(t)|..] == body + tail
  {
    Assoc(Bytes(t), body, tail);
    ReadNumber(t, body + tail, rest);
  }

  lemma EnterDoc(tags: seq<Text>, d: Option<Doc>, rest: seq<byte>, tail: seq<byte>)
    requires DocAt(tags, d, rest, tail)
    ensures var (tag, n) := Read(rest);
      && 0 < n <= |rest|
      && (d.None? ==> Type(tag) == END && rest[n..] == tail)
      && (d.Some? ==> Name(tag) == KeyTag(tags, d.value.key) && BodyAt(tags, d.value.body, tag, rest[n..], tail))
  {
    if d.None? { EnterEnd(rest, tail); } else { EnterBody(tags, d.value, rest, tail); }
  }

  // What the documents of an object leave: the next one, or the end.
  function Next(ds: seq<Doc>): Option<Doc> { if ds == [] then None else Some(ds[0]) }

  predicate FieldsAt(tags: seq<Text>, ds: seq<Doc>, rest: seq<byte>, tail: seq<byte>) {
    DocsFit(tags, ds) && rest == DocsBytes(tags, ds) + EndBytes() + tail
  }

  // What follows the first document, or the end, of the documents of an object.
  function AfterNext(tags: seq<Text>, ds: seq<Doc>, tail: seq<byte>): seq<byte> {
    if ds == [] then tail else DocsBytes(tags, ds[1..]) + EndBytes() + tail
  }

  lemma EnterFields(tags: seq<Text>, ds: seq<Doc>, rest: seq<byte>, tail: seq<byte>)
    requires FieldsAt(tags, ds, rest, tail)
    ensures DocAt(tags, Next(ds), rest, AfterNext(tags, ds, tail))
    ensures ds != [] ==> FieldsAt(tags, ds[1..], AfterNext(tags, ds, tail), tail)
  {
    if ds != [] {
      var a, b, e := DocBytes(tags, ds[0]), DocsBytes(tags, ds[1..]), EndBytes();
      assert rest == a + b + e + tail;
      Assoc(a, b, e);
      Assoc(a, b + e, tail);
    }
  }

  predicate ElemsAt(tags: seq<Text>, ds: seq<Doc>, rest: seq<byte>, tail: seq<byte>) {
    DocsFit(tags, ds) && rest == DocsBytes(tags, ds) + tail
  }

  lemma EnterElems(tags: seq<Text>, ds: seq<Doc>, rest: seq<byte>, tail: seq<byte>)
    requires ElemsAt(tags, ds, rest, tail) && ds != []
    ensures DocAt(tags, Some(ds[0]), rest, DocsBytes(tags, ds[1..]) + tail)
    ensures ElemsAt(tags, ds[1..], DocsBytes(tags, ds[1..]) + tail, tail)
  {
    Assoc(DocBytes(tags, ds[0]), DocsBytes(tags, ds[1..]), tail);
  }

  predicate ScalarsAt(tag: nat, ss: seq<Scalar>, rest: seq<byte>, tail: seq<byte>) {
    && (forall i :: 0 <= i < |ss| ==> ScalarFits(ss[i]) && ScalarTag(ss[i]) == tag)
    && rest == ScalarsBytes(ss) + tail
  }

  lemma EnterScalars(tag: nat, ss: seq<Scalar>, rest: seq<byte>, tail: seq<byte>)
    requires ScalarsAt(tag, ss, rest, tail) && ss != []
    ensures rest == ScalarBytes(ss[0]) + (ScalarsBytes(ss[1..]) + tail)
    ensures ScalarsAt(tag, ss[1..], ScalarsBytes(ss[1..]) + tail, tail)
  {
    Assoc(ScalarBytes(ss[0]), ScalarsBytes(ss[1..]), tail);
  }

  // The count and subtag of an array.
  lemma EnterArray(tags: seq<Text>, b: Body, rest: seq<byte>, tail: seq<byte>)
    requires BodyFits(tags, b) && rest == BodyBytes(tags, b) + tail && (b.Arr? || b.Objs?)
    ensures |rest| >= 4 && var t := FromLE(rest[..4]);
      && (b.Arr? ==> CTags.Count(t) == |b.elems| && ElemTag(t) == b.tag && ScalarsAt(b.tag, b.elems, rest[4..], tail))
      && (b.Objs? ==> CTags.Count(t) == |b.docs| && ElemTag(t) == OBJECT && ElemsAt(tags, b.docs, rest[4..], tail))
  {
    Pow256Of(4);
    if b.Arr? {
      CArrayTagFields(|b.elems|, b.tag);
      Assoc(LE(MkCArrayTag(|b.elems|, b.tag), 4), ScalarsBytes(b.elems), tail);
      ReadLE(MkCArrayTag(|b.elems|, b.tag), 4, ScalarsBytes(b.elems) + tail, rest);
    } else {
      CArrayTagFields(|b.docs|, OBJECT);
      Assoc(LE(MkCArrayTag(|b.docs|, OBJECT), 4), DocsBytes(tags, b.docs), tail);
      ReadLE(MkCArrayTag(|b.docs|, OBJECT), 4, DocsBytes(tags, b.docs) + tail, rest);
    }
  }

  // A name in the tag is what makes the document a keyed one.
  lemma EnterTagged(tags: seq<Text>, d: Doc, tag: nat, rest: seq<byte>, tail: seq<byte>)
    requires TaggedAt(tags, d, tag, rest, tail) && Type(tag) != NULL
    ensures BodyAt(tags, d.body, tag, rest, tail) && !d.body.Null?
    ensures d.key == if Name(tag) == 0 then None else Some(tags[Name(tag) - 1])
  {
  }

  lemma DecByKey(pl: Payload, ty: Ty, cur: Value, d: Doc, cnt: Counters)
    requires !d.body.Null?
    ensures CountDoc(d, cnt) == CountBody(d.body, cnt)
    ensures Dec(pl, ty, cur, d, cnt) ==
      match d.key case None => Put(pl, ty, cur, d.body, cnt) case Some(name) => DecKeyed(pl, ty, cur, name, d.body, cnt)
  {
  }

  // How putting a body ends: `empty` tells of an array without elements, which any type
  // accepts.
  ghost predicate PutDone(pl: Payload, ty: Ty, cur: Value, b: Body, cnt0: Counters, ok: bool, empty: bool, v: Value, cnt: Counters) {
    && (ok ==> cnt == CountBody(b, cnt0) && empty == EmptyArray(b))
    && if EmptyArray(b) && !ty.TSlice? && !ty.TArray? then ok
       else var r := PutIn(pl, ty, cur, b, cnt0); ok == r.Success? && (ok ==> v == r.value)
  }

  // A value taken from the payload; only an array makes use of the count.
  lemma IndexedDone(pl: Payload, ty: Ty, cur: Value, b: Body, n: nat, cnt0: Counters, ok: bool, v: Value, cnt: Counters)
    requires b.Indexed? && b.field < |cnt0| && n == (if b.ty == ARRAY then b.count else 1)
    requires var r := PutIn(pl, ty, cur, Indexed(b.ty, b.field, n), cnt0); ok == r.Success? && (ok ==> v == r.value)
    requires ok ==> cnt == cnt0[b.field := cnt0[b.field] + n]
    requires !(EmptyArray(b) && !ty.TSlice? && !ty.TArray?)
    ensures PutDone(pl, ty, cur, b, cnt0, ok, b.ty == ARRAY && n == 0, v, cnt)
  {
    assert PutIn(pl, ty, cur, b, cnt0) == PutIn(pl, ty, cur, Indexed(b.ty, b.field, n), cnt0);
  }

  lemma NoneDone(pl: Payload, ty: Ty, cur: Value, b: Body, cnt: Counters)
    requires EmptyArray(b) && !ty.TSlice? && !ty.TArray?
    ensures PutDone(pl, ty, cur, b, cnt, true, true, cur, cnt)
  {
    if b.Indexed? && b.field < |cnt| {
      assert cnt[b.field := cnt[b.field] + b.count] == cnt;
    }
  }

  lemma ObjsDone(pl: Payload, ty: Ty, cur: Value, b: Body, cnt0: Counters, ok: bool, xs: seq<Value>, v: Value, cnt: Counters)
    requires b.Objs? && (ty.TSlice? || ty.TArray?) && (ty.TArray? ==> |b.docs| <= |Elems(cur)|)
    requires var r := DecElems(pl, ty.elem, if ty.TArray? then Elems(cur) else [], b.docs, cnt0);
      ok == r.Success? && (ok ==> xs == r.value && cnt == CountDocs(b.docs, cnt0))
    requires ok ==> v == VList(if ty.TArray? then xs + Elems(cur)[|b.docs|..] else Elems(cur) + xs)
    ensures PutDone(pl, ty, cur, b, cnt0, ok, b.docs == [], v, cnt)
  {
    assert CountBody(b, cnt0) == CountDocs(b.docs, cnt0);
  }

  lemma ScalarsDone(pl: Payload, ty: Ty, cur: Value, b: Body, cnt: Counters, ok: bool, v: Value)
    requires b.Arr? && (ty.TSlice? || ty.TArray?)
    requires var r := PutMany(ty, cur, b.elems); ok == r.Success? && (ok ==> v == r.value)
    ensures PutDone(pl, ty, cur, b, cnt, ok, b.elems == [], v, cnt)
  {
  }

  // ---- the types along a path of tags ----

  // The type objects inside a value of type ty are put into.
  function Strip(ty: Ty): Ty {
    match ty
    case TPtr(t) => Strip(t)
    case TSlice(e) => Strip(e)
    case TArray(_, e) => Strip(e)
    case _ => ty
  }

  function Step(c: Ty, name: Text): Option<Ty> {
    if c.TMap? then Some(Strip(c.elem))
    else if c.TStruct? && Locate(c, 0, name).Some? then Some(Strip(TypeAt(c, Locate(c, 0, name).value)))
    else None
  }

  function Container(root: Ty, tags: seq<Text>, path: seq<nat>): Option<Ty> {
    if path == [] then Some(Strip(root))
    else
      var t := path[|path| - 1];
      var c := Container(root, tags, path[..|path| - 1]);
      if c.Some? && 0 < t <= |tags| then Step(c.value, tags[t - 1]) else None
  }

  // The answer for a path: where its last name is in the struct the rest leads to.
  predicate Right(root: Ty, tags: seq<Text>, path: seq<nat>, r: Option<seq<nat>>) {
    path != [] &&
    var t := path[|path| - 1];
    var c := Container(root, tags, path[..|path| - 1]);
    c.Some? && c.value.TStruct? && 0 < t <= |tags| && r == Locate(c.value, 0, tags[t - 1])
  }

  // What the caches of a decoder may hold: answers that are right.
  ghost predicate CacheOk(root: Ty, tags: seq<Text>, cache: Cache, missing: set<seq<nat>>) {
    && (forall p: seq<nat> :: p != [] && Get(cache, p) != [] ==> Right(root, tags, p, Some(Get(cache, p))))
    && (forall p :: p in missing ==> Right(root, tags, p, None))
  }

  lemma EmptyCacheOk(root: Ty, tags: seq<Text>)
    ensures CacheOk(root, tags, Cache([]), {})
  {
    forall p: seq<nat> | p != [] ensures Get(Cache([]), p) == [] {
      NothingIn(p);
    }
  }

  class Decoder {
    const root: Ty
    const tags: seq<Text>
    const pl: Payload
    const ser: Serializer
    var cnt: Counters
    var cache: Cache
    var missing: set<seq<nat>>

    ghost predicate Ready()
      reads this, ser
    {
      && ser.Valid() && 0 <= ser.pos <= ser.len && |cnt| == 256
      && CacheOk(root, tags, cache, missing)
    }

    ghost function Rest(): seq<byte>
      requires ser.Valid() && 0 <= ser.pos <= ser.len
      reads this, ser, ser.arr
    {
      ser.Rest()
    }

    // The caches may be those of earlier decoding.
    constructor (root: Ty, tags: seq<Text>, pl: Payload, ser: Serializer, cache: Cache, missing: set<seq<nat>>)
      requires ser.Valid() && 0 <= ser.pos <= ser.len && CacheOk(root, tags, cache, missing)
      ensures Ready() && this.root == root && this.tags == tags && this.pl == pl && this.ser == ser
      ensures cnt == seq(256, i => 0)
    {
      this.root, this.tags, this.pl, this.ser := root, tags, pl, ser;
      this.cnt, this.cache, this.missing := seq(256, i => 0), cache, missing;
    }

    // ---- reading ----

    // A number the code would misread (cut off, or of more than 64 bits) ends decoding.
    method GetVarUInt() returns (ok: bool, v: nat)
      requires ser.Valid() && 0 <= ser.pos <= ser.len
      modifies ser`pos
      ensures 0 <= old(ser.pos) <= ser.pos <= ser.len
      ensures ok <==> Read(old(Rest())).1 > 0
      ensures ok ==>
        var (u, n) := Read(old(Rest()));
        n <= |old(Rest())| && v == u && Rest() == old(Rest())[n..] && old(ser.pos) < ser.pos
    {
      var p := ser.pos;
      ReadBound(Rest(), 0, 0);
      ok, v := ser.GetVarUInt();
      if ser.pos <= p {
        ok := false;
        ser.pos := p;
      }
    }

    method GetCTag(ghost d: Option<Doc>, ghost tail: seq<byte>) returns (ok: bool, tag: nat)
      requires ser.Valid() && 0 <= ser.pos <= ser.len
      modifies ser`pos
      ensures 0 <= old(ser.pos) <= ser.pos <= ser.len && (ok ==> old(ser.pos) < ser.pos)
      ensures DocAt(tags, d, old(Rest()), tail) ==> ok
      ensures DocAt(tags, d, old(Rest()), tail) && d.None? ==> Type(tag) == END && Rest() == tail
      ensures DocAt(tags, d, old(Rest()), tail) && d.Some? ==> TaggedAt(tags, d.value, tag, Rest(), tail)
    {
      if DocAt(tags, d, Rest(), tail) { EnterDoc(tags, d, Rest(), tail); }
      ok, tag := GetVarUInt();
    }

    // One value without a tag of its own; s and tail say what the bytes should be.
    method GetScalar(tag: nat, ghost s: Scalar, ghost tail: seq<byte>) returns (ok: bool, x: Scalar)
      requires ser.Valid() && 0 <= ser.pos <= ser.len
      modifies ser`pos
      ensures ok ==> 0 <= old(ser.pos) <= ser.pos <= ser.len
      ensures ScalarFits(s) && tag == ScalarTag(s) && old(Rest()) == ScalarBytes(s) + tail ==> ok && x == s && Rest() == tail
    {
      ghost var on := ScalarFits(s) && tag == ScalarTag(s) && Rest() == ScalarBytes(s) + tail;
      x := SVar(0);
      var v: nat;
      if tag == VARINT {
        ok, x := GetVarInt(if s.SVar? then s.i else 0, tail, on);
      } else if tag == BOOL {
        if on { ReadNumber(s.n, tail, Rest()); }
        ok, v := GetVarUInt();
        x := SBool(v);
      } else if tag == DOUBLE {
        ok, v := GetFixed(8, if s.SDouble? then s.bits else 0, tail, on);
        x := SDouble(v);
      } else if tag == FLOAT {
        ok, v := GetFixed(4, if s.SFloat? then s.bits else 0, tail, on);
        x := SFloat(v);
      } else if tag == STRING {
        ok, x := GetString(if s.SStr? then s.s else [], tail, on);
      } else if tag == UUID {
        ok, x := GetUuid(s, tail, on);
      } else {
        ok := false;
      }
    }

    method GetVarInt(ghost i: int, ghost tail: seq<byte>, ghost on: bool) returns (ok: bool, x: Scalar)
      requires ser.Valid() && 0 <= ser.pos <= ser.len
      requires on ==> ScalarFits(SVar(i)) && Rest() == Bytes(ZigZag(i)) + tail
      modifies ser`pos
      ensures ok ==> 0 <= old(ser.pos) <= ser.pos <= ser.len
      ensures on ==> ok && x == SVar(i) && Rest() == tail
    {
      if on {
        ReadNumber(ZigZag(i), tail, Rest());
        ZigZagInverse(i);
      }
      ReadBound(Rest(), 0, 0);
      var p := ser.pos;
      var v;
      ok, v := ser.GetVarInt();
      ok := ok && p < ser.pos;
      x := SVar(v);
    }

    method GetFixed(k: nat, ghost bits: nat, ghost tail: seq<byte>, ghost on: bool) returns (ok: bool, v: nat)
      requires ser.Valid() && 0 <= ser.pos <= ser.len && k in {4, 8}
      requires on ==> bits < (if k == 4 then 0x1_0000_0000 else 0x1_0000_0000_0000_0000) && Rest() == LE(bits, k) + tail
      modifies ser`pos
      ensures ok ==> 0 <= old(ser.pos) <= ser.pos <= ser.len
      ensures on ==> ok && v == bits && Rest() == tail
    {
      if on {
        Pow256Of(k);
        ReadLE(bits, k, tail, Rest());
      }
      ok, v := ser.GetLE(k);
    }

    method GetString(ghost s: Text, ghost tail: seq<byte>, ghost on: bool) returns (ok: bool, x: Scalar)
      requires ser.Valid() && 0 <= ser.pos <= ser.len
      requires on ==> |s| < 0x8000_0000_0000_0000 && Rest() == Bytes(|s|) + s + tail
      modifies ser`pos
      ensures ok ==> 0 <= old(ser.pos) <= ser.pos <= ser.len
      ensures on ==> ok && x == SStr(s) && Rest() == tail
    {
      if on {
        ReadString(s, tail, Rest());
        Small(|s|);
      }
      var p := ser.pos;
      var t: Text;
      ok, t := ser.GetVString();
      ok := ok && p <= ser.pos;
      x := SStr(t);
    }

    method GetUuid(ghost s: Scalar, ghost tail: seq<byte>, ghost on: bool) returns (ok: bool, x: Scalar)
      requires ser.Valid() && 0 <= ser.pos <= ser.len
      requires on ==> s.SUuid? && ScalarFits(s) && Rest() == ScalarBytes(s) + tail
      modifies ser`pos
      ensures ok ==> 0 <= old(ser.pos) <= ser.pos <= ser.len
      ensures on ==> ok && x == s && Rest() == tail
    {
      if on { ReadUuid(s.hi, s.lo, tail, Rest()); }
      var hi: nat, lo: nat;
      ok, hi := ser.GetLE(8);
      x := SUuid(hi, 0);
      if ok {
        ok, lo := ser.GetLE(8);
        x := SUuid(hi, lo);
      }
    }

    // ---- skipping ----

    method SkipTag(tag: nat, ghost s: Scalar, ghost tail: seq<byte>) returns (ok: bool)
      requires ser.Valid() && 0 <= ser.pos <= ser.len
      modifies ser`pos
      ensures ok ==> 0 <= old(ser.pos) <= ser.pos <= ser.len
      ensures tag == NULL ==> ok && Rest() == old(Rest())
      ensures ScalarFits(s) && tag == ScalarTag(s) && old(Rest()) == ScalarBytes(s) + tail ==> ok && Rest() == tail
    {
      if tag == NULL {
        ok := true;
      } else if tag == STRING {
        ok := SkipString(if s.SStr? then s.s else [], tail);
      } else {
        var x;
        ok, x := GetScalar(tag, s, tail);
      }
    }

    method SkipString(ghost s: Text, ghost tail: seq<byte>) returns (ok: bool)
      requires ser.Valid() && 0 <= ser.pos <= ser.len
      modifies ser`pos
      ensures ok ==> 0 <= old(ser.pos) <= ser.pos <= ser.len
      ensures |s| < 0x8000_0000_0000_0000 && old(Rest()) == Bytes(|s|) + s + tail ==> ok && Rest() == tail
    {
      if |s| < 0x8000_0000_0000_0000 && Rest() == Bytes(|s|) + s + tail {
        ReadString(s, tail, Rest());
        Small(|s|);
      }
      var p := ser.pos;
      ok := ser.SkipVString();
      ok := ok && p <= ser.pos;
    }

    // skipStruct, the tag having been read
    method SkipStruct(tag: nat, ghost b: Body, ghost tail: seq<byte>) returns (ok: bool, more: bool)
      requires ser.Valid() && 0 <= ser.pos <= ser.len && |cnt| == 256
      modifies ser`pos, this`cnt
      ensures ok ==> 0 <= old(ser.pos) <= ser.pos <= ser.len && |cnt| == 256
      ensures Type(tag) == END ==> ok && !more && Rest() == old(Rest()) && cnt == old(cnt)
      ensures BodyAt(tags, b, tag, old(Rest()), tail) ==> ok && more && Rest() == tail && cnt == CountBody(b, old(cnt))
      decreases ser.len - ser.pos, 2
    {
      ghost var rest := Rest();
      ghost var on := BodyAt(tags, b, tag, rest, tail);
      ok, more := true, Type(tag) != END;
      if !more {
        return;
      }
      var field, ty := FieldOf(tag), Type(tag);
      if field >= 0 {
        if field >= 256 {
          ok := false;
        } else if ty == ARRAY {
          if on { ReadNumber(b.count, tail, rest); }
          var n;
          ok, n := GetVarUInt();
          cnt := cnt[field := cnt[field] + n];
        } else {
          cnt := cnt[field := cnt[field] + 1];
        }
      } else if ty == OBJECT {
        ok := SkipFields(if b.Obj? then b.fields else [], tail);
      } else if ty == ARRAY {
        if on { EnterArray(tags, b, rest, tail); }
        var atag;
        ok, atag := ser.GetLE(4);
        if ok {
          if ElemTag(atag) == OBJECT {
            ok := SkipElems(CTags.Count(atag), if b.Objs? then b.docs else [], tail);
          } else {
            ok := SkipScalars(CTags.Count(atag), ElemTag(atag), if b.Arr? then b.elems else [], tail);
          }
        }
      } else {
        ok := SkipTag(ty, if b.Sc? then b.s else SVar(0), tail);
      }
    }

    method SkipFields(ghost ds: seq<Doc>, ghost tail: seq<byte>) returns (ok: bool)
      requires ser.Valid() && 0 <= ser.pos <= ser.len && |cnt| == 256
      modifies ser`pos, this`cnt
      ensures ok ==> 0 <= old(ser.pos) <= ser.pos <= ser.len && |cnt| == 256
      ensures FieldsAt(tags, ds, old(Rest()), tail) ==> ok && Rest() == tail && cnt == CountDocs(ds, old(cnt))
      decreases ser.len - ser.pos, 1
    {
      ghost var on := FieldsAt(tags, ds, Rest(), tail);
      ghost var left := ds;
      var more := true;
      ok := true;
      while more
        invariant ok ==> 0 <= old(ser.pos) <= ser.pos <= ser.len && |cnt| == 256
        invariant !ok ==> !more
        invariant on ==> ok && CountDocs(left, cnt) == CountDocs(ds, old(cnt))
        invariant on && more ==> FieldsAt(tags, left, Rest(), tail)
        invariant on && !more ==> left == [] && Rest() == tail
        decreases if more then ser.len - ser.pos + 1 else 0
      {
        ghost var after := AfterNext(tags, left, tail);
        if on {
          EnterFields(tags, left, Rest(), tail);
          EnterDoc(tags, Next(left), Rest(), after);
        }
        var tag;
        ok, tag := GetVarUInt();
        more := ok;
        if ok {
          ok, more := SkipStruct(tag, if left == [] then Null else left[0].body, after);
          more := more && ok;
          left := if left == [] then [] else left[1..];
        }
      }
    }

    method SkipElems(count: nat, ghost ds: seq<Doc>, ghost tail: seq<byte>) returns (ok: bool)
      requires ser.Valid() && 0 <= ser.pos <= ser.len && |cnt| == 256
      modifies ser`pos, this`cnt
      ensures ok ==> 0 <= old(ser.pos) <= ser.pos <= ser.len && |cnt| == 256
      ensures count == |ds| && ElemsAt(tags, ds, old(Rest()), tail) ==> ok && Rest() == tail && cnt == CountDocs(ds, old(cnt))
      decreases ser.len - ser.pos, 1
    {
      ghost var on := count == |ds| && ElemsAt(tags, ds, Rest(), tail);
      ghost var left := ds;
      ok := true;
      var i := 0;
      while i < count && ok
        invariant ok ==> 0 <= old(ser.pos) <= ser.pos <= ser.len && |cnt| == 256
        invariant i <= count
        invariant on ==> ok && |left| == count - i && ElemsAt(tags, left, Rest(), tail)
        invariant on ==> CountDocs(left, cnt) == CountDocs(ds, old(cnt))
      {
        ghost var after := if left == [] then [] else DocsBytes(tags, left[1..]) + tail;
        if on {
          EnterElems(tags, left, Rest(), tail);
          EnterDoc(tags, Some(left[0]), Rest(), after);
        }
        var tag;
        ok, tag := GetVarUInt();
        if ok {
          var more;
          ok, more := SkipStruct(tag, if left == [] then Null else left[0].body, after);
        }
        left := if left == [] then [] else left[1..];
        i := i + 1;
      }
    }

    method SkipScalars(count: nat, tag: nat, ghost ss: seq<Scalar>, ghost tail: seq<byte>) returns (ok: bool)
      requires ser.Valid() && 0 <= ser.pos <= ser.len
      modifies ser`pos
      ensures ok ==> 0 <= old(ser.pos) <= ser.pos <= ser.len
      ensures count == |ss| && ScalarsAt(tag, ss, old(Rest()), tail) ==> ok && Rest() == tail
    {
      ghost var on := count == |ss| && ScalarsAt(tag, ss, Rest(), tail);
      ghost var left := ss;
      ok := true;
      var i := 0;
      while i < count && ok
        invariant ok ==> 0 <= old(ser.pos) <= ser.pos <= ser.len
        invariant i <= count
        invariant on ==> ok && |left| == count - i && ScalarsAt(tag, left, Rest(), tail)
      {
        if on { EnterScalars(tag, left, Rest(), tail); }
        ok := SkipTag(tag, if left == [] then SVar(0) else left[0], if left == [] then [] else ScalarsBytes(left[1..]) + tail);
        left := if left == [] then [] else left[1..];
        i := i + 1;
      }
    }

    // ---- where to put a field ----

    // The field a name stands for, by the caches or by fieldByTag and into the caches.
    method Resolve(ty: Ty, path: seq<nat>) returns (idx: Option<seq<nat>>)
      requires CacheOk(root, tags, cache, missing)
      requires path != [] && 0 < path[|path| - 1] <= |tags| && ty.TStruct?
      requires Container(root, tags, path[..|path| - 1]) == Some(ty)
      modifies this`cache, this`missing
      ensures CacheOk(root, tags, cache, missing)
      ensures idx == Locate(ty, 0, tags[path[|path| - 1] - 1])
    {
      var found := Find(cache, path);
      assert Get(cache, path) != [] ==> Right(root, tags, path, Some(Get(cache, path)));
      if found.None? || found.value == [] {
        if path in missing {
          return None;
        }
        AddNewTag(ty, path);
        found := Find(cache, path);
      }
      idx := if found.value != [] then found else None;
    }

    // tryToAddNewTag
    method AddNewTag(ty: Ty, path: seq<nat>)
      requires CacheOk(root, tags, cache, missing)
      requires path != [] && 0 < path[|path| - 1] <= |tags| && ty.TStruct?
      requires Container(root, tags, path[..|path| - 1]) == Some(ty)
      modifies this`cache, this`missing
      ensures CacheOk(root, tags, cache, missing)
      ensures Find(cache, path) == Some(match Locate(ty, 0, tags[path[|path| - 1] - 1]) case Some(p) => p case None => [])
    {
      var old0 := cache;
      forall q: seq<nat> | q != [] ensures Get(FindOrAdd(old0, path), q) == Get(old0, q) {
        AddChangesNothing(old0, path, q);
      }
      AddChangesNothing(old0, path, path);
      cache := FindOrAdd(cache, path);
      if Find(cache, path).value == [] {
        var added := cache;
        match Locate(ty, 0, tags[path[|path| - 1] - 1])
        case Some(p) =>
          cache := Store(cache, path, p);
          forall q: seq<nat> | q != [] ensures Get(cache, q) == if q == path then p else Get(added, q) {
            StoreChangesOne(added, path, p, q);
          }
          StoredThere(added, path, p);
        case None =>
          missing := missing + {path};
      }
    }

    // ---- decoding ----

    method DecodeValue(ty: Ty, cur: Value, path: seq<nat>, ghost d: Option<Doc>, ghost tail: seq<byte>)
      returns (ok: bool, more: bool, v: Value)
      requires Ready() && Container(root, tags, path) == Some(Strip(ty))
      modifies ser`pos, this`cnt, this`cache, this`missing
      ensures CacheOk(root, tags, cache, missing)
      ensures ok ==> Ready() && old(ser.pos) < ser.pos
      ensures d.None? && DocAt(tags, d, old(Rest()), tail) ==> ok && !more && v == cur && Rest() == tail && cnt == old(cnt)
      ensures d.Some? && DocAt(tags, d, old(Rest()), tail) ==> ok == Dec(pl, ty, cur, d.value, old(cnt)).Success?
      ensures d.Some? && DocAt(tags, d, old(Rest()), tail) && ok ==>
        && more && v == Dec(pl, ty, cur, d.value, old(cnt)).value && Rest() == tail && cnt == CountDoc(d.value, old(cnt))
      decreases ser.len - ser.pos, 0
    {
      v, more := cur, false;
      var tag;
      ok, tag := GetCTag(d, tail);
      if ok && Type(tag) != END {
        more := true;
        if Type(tag) != NULL {
          ok, v := DecodeTagged(ty, cur, tag, path, if d.Some? then d.value else Doc(None, Null), tail);
        }
      }
    }

    // The value behind a tag.
    method DecodeTagged(ty: Ty, cur: Value, tag: nat, path: seq<nat>, ghost d: Doc, ghost tail: seq<byte>)
      returns (ok: bool, v: Value)
      requires Ready() && Container(root, tags, path) == Some(Strip(ty))
      requires Type(tag) != END && Type(tag) != NULL
      modifies ser`pos, this`cnt, this`cache, this`missing
      ensures CacheOk(root, tags, cache, missing)
      ensures ok ==> Ready() && old(ser.pos) <= ser.pos
      ensures TaggedAt(tags, d, tag, old(Rest()), tail) ==> ok == Dec(pl, ty, cur, d, old(cnt)).Success?
      ensures TaggedAt(tags, d, tag, old(Rest()), tail) && ok ==>
        v == Dec(pl, ty, cur, d, old(cnt)).value && Rest() == tail && cnt == CountDoc(d, old(cnt))
      decreases ser.len - ser.pos, 7
    {
      v := cur;
      if TaggedAt(tags, d, tag, Rest(), tail) {
        EnterTagged(tags, d, tag, Rest(), tail);
        DecByKey(pl, ty, cur, d, cnt);
      }
      if Name(tag) == 0 {
        ok, v := PutValue(ty, cur, tag, path, d.body, tail);
      } else if Name(tag) > |tags| {
        ok := false;
      } else {
        ok, v := DecodeKeyed(ty, cur, tag, path + [Name(tag)], d.body, tail);
      }
    }

    method DecodeKeyed(ty: Ty, cur: Value, tag: nat, path: seq<nat>, ghost b: Body, ghost tail: seq<byte>)
      returns (ok: bool, v: Value)
      requires Ready() && 0 < Name(tag) <= |tags| && path != [] && path[|path| - 1] == Name(tag)
      requires Container(root, tags, path[..|path| - 1]) == Some(Strip(ty))
      requires Type(tag) != END && Type(tag) != NULL
      modifies ser`pos, this`cnt, this`cache, this`missing
      ensures CacheOk(root, tags, cache, missing)
      ensures ok ==> Ready() && old(ser.pos) <= ser.pos
      ensures BodyAt(tags, b, tag, old(Rest()), tail) ==>
        ok == DecKeyed(pl, ty, cur, tags[Name(tag) - 1], b, old(cnt)).Success?
      ensures BodyAt(tags, b, tag, old(Rest()), tail) && ok ==>
        && v == DecKeyed(pl, ty, cur, tags[Name(tag) - 1], b, old(cnt)).value
        && Rest() == tail && cnt == CountBody(b, old(cnt))
      decreases ser.len - ser.pos, 6
    {
      if ty.TPtr? {
        ok, v := DecodeNamed(ty.to, if cur.VPtr? then cur.to else Zero(ty.to), tag, path, b, tail);
        v := VPtr(v);
      } else {
        ok, v := DecodeNamed(ty, cur, tag, path, b, tail);
      }
    }

    // A named value goes to a map entry or a struct field, or is skipped.
    method DecodeNamed(ty: Ty, cur: Value, tag: nat, path: seq<nat>, ghost b: Body, ghost tail: seq<byte>)
      returns (ok: bool, v: Value)
      requires Ready() && 0 < Name(tag) <= |tags| && path != [] && path[|path| - 1] == Name(tag)
      requires Container(root, tags, path[..|path| - 1]) == Some(Strip(ty))
      requires Type(tag) != END && Type(tag) != NULL
      modifies ser`pos, this`cnt, this`cache, this`missing
      ensures CacheOk(root, tags, cache, missing)
      ensures ok ==> Ready() && old(ser.pos) <= ser.pos
      ensures BodyAt(tags, b, tag, old(Rest()), tail) ==>
        ok == DecNamed(pl, ty, cur, tags[Name(tag) - 1], b, old(cnt)).Success?
      ensures BodyAt(tags, b, tag, old(Rest()), tail) && ok ==>
        && v == DecNamed(pl, ty, cur, tags[Name(tag) - 1], b, old(cnt)).value
        && Rest() == tail && cnt == CountBody(b, old(cnt))
      decreases ser.len - ser.pos, 5
    {
      ok, v := false, cur;
      if ty.TMap? {
        ok, v := DecodeEntry(ty.elem, tag, path, b, tail);
        v := SetKey(cur, tags[Name(tag) - 1], v);
      } else if ty.TStruct? {
        ok, v := DecodeField(ty, cur, tag, path, b, tail);
      }
    }

    // The value of a map entry; where an empty array leaves a pointer nil the entry gets
    // the address of the zero value that was allocated for it.
    method DecodeEntry(e: Ty, tag: nat, path: seq<nat>, ghost b: Body, ghost tail: seq<byte>) returns (ok: bool, v: Value)
      requires Ready() && Container(root, tags, path) == Some(Strip(e))
      requires Type(tag) != END && Type(tag) != NULL
      modifies ser`pos, this`cnt, this`cache, this`missing
      ensures CacheOk(root, tags, cache, missing)
      ensures ok ==> Ready() && old(ser.pos) <= ser.pos
      ensures BodyAt(tags, b, tag, old(Rest()), tail) ==> ok == Put(pl, e, Zero(e), b, old(cnt)).Success?
      ensures BodyAt(tags, b, tag, old(Rest()), tail) && ok ==>
        v == ForMap(e, b, Put(pl, e, Zero(e), b, old(cnt)).value) && Rest() == tail && cnt == CountBody(b, old(cnt))
      decreases ser.len - ser.pos, 4
    {
      ok, v := PutValue(e, Zero(e), tag, path, b, tail);
      if e.TPtr? && v.VNil? {
        v := VPtr(Zero(e.to));
      }
    }

    method DecodeField(ty: Ty, cur: Value, tag: nat, path: seq<nat>, ghost b: Body, ghost tail: seq<byte>)
      returns (ok: bool, v: Value)
      requires Ready() && 0 < Name(tag) <= |tags| && path != [] && path[|path| - 1] == Name(tag) && ty.TStruct?
      requires Container(root, tags, path[..|path| - 1]) == Some(ty)
      requires Type(tag) != END && Type(tag) != NULL
      modifies ser`pos, this`cnt, this`cache, this`missing
      ensures CacheOk(root, tags, cache, missing)
      ensures ok ==> Ready() && old(ser.pos) <= ser.pos
      ensures BodyAt(tags, b, tag, old(Rest()), tail) ==>
        ok == DecNamed(pl, ty, cur, tags[Name(tag) - 1], b, old(cnt)).Success?
      ensures BodyAt(tags, b, tag, old(Rest()), tail) && ok ==>
        && v == DecNamed(pl, ty, cur, tags[Name(tag) - 1], b, old(cnt)).value
        && Rest() == tail && cnt == CountBody(b, old(cnt))
      decreases ser.len - ser.pos, 4
    {
      v := cur;
      var idx := Resolve(ty, path);
      match idx {
        case None =>
          var more;
          ok, more := SkipStruct(tag, b, tail);
        case Some(p) =>
          var old1 := At(cur, p);
          ok := old1.Some?;
          if ok {
            ok, v := PutValue(TypeAt(ty, p), old1.value, tag, path, b, tail);
            v := SetAt(cur, p, v);
          }
      }
    }

    // The destination is known: through a pointer, which is allocated when nil.
    method PutValue(ty: Ty, cur: Value, tag: nat, path: seq<nat>, ghost b: Body, ghost tail: seq<byte>)
      returns (ok: bool, v: Value)
      requires Ready() && Container(root, tags, path) == Some(Strip(ty))
      requires Type(tag) != END && Type(tag) != NULL
      modifies ser`pos, this`cnt, this`cache, this`missing
      ensures CacheOk(root, tags, cache, missing)
      ensures ok ==> Ready() && old(ser.pos) <= ser.pos
      ensures BodyAt(tags, b, tag, old(Rest()), tail) ==> ok == Put(pl, ty, cur, b, old(cnt)).Success?
      ensures BodyAt(tags, b, tag, old(Rest()), tail) && ok ==>
        v == Put(pl, ty, cur, b, old(cnt)).value && Rest() == tail && cnt == CountBody(b, old(cnt))
      decreases ser.len - ser.pos, 3
    {
      var empty;
      if ty.TPtr? {
        ok, empty, v := PutInto(ty.to, if cur.VPtr? then cur.to else Zero(ty.to), tag, path, b, tail);
        v := if empty && !ty.to.TSlice? && !ty.to.TArray? then VNil else VPtr(v);
      } else {
        ok, empty, v := PutInto(ty, cur, tag, path, b, tail);
        v := if empty && !ty.TSlice? && !ty.TArray? then Zero(ty) else v;
      }
    }

    method PutInto(ty: Ty, cur: Value, tag: nat, path: seq<nat>, ghost b: Body, ghost tail: seq<byte>)
      returns (ok: bool, empty: bool, v: Value)
      requires Ready() && Container(root, tags, path) == Some(Strip(ty))
      requires Type(tag) != END && Type(tag) != NULL
      modifies ser`pos, this`cnt, this`cache, this`missing
      ensures CacheOk(root, tags, cache, missing)
      ensures ok ==> Ready() && old(ser.pos) <= ser.pos
      ensures BodyAt(tags, b, tag, old(Rest()), tail) ==> PutDone(pl, ty, cur, b, old(cnt), ok, empty, v, cnt)
      ensures BodyAt(tags, b, tag, old(Rest()), tail) && ok ==> Rest() == tail
      decreases ser.len - ser.pos, 2
    {
      ghost var on := BodyAt(tags, b, tag, Rest(), tail);
      ok, empty, v := true, false, cur;
      var r: Result<Value, Fault>;
      if FieldOf(tag) >= 0 {
        ok, empty, v := PutIndexed(ty, cur, tag, b, tail);
      } else if Type(tag) == OBJECT {
        ok, v := DecodeFields(ty, cur, path, if b.Obj? then b.fields else [], tail);
      } else if Type(tag) == ARRAY {
        ok, empty, v := DecodeSlice(ty, cur, path, b, tail);
      } else {
        var s;
        ok, s := GetScalar(Type(tag), if b.Sc? then b.s else SVar(0), tail);
        if ok {
          r := PutOne(ty, cur, s);
          ok, v := r.Success?, if r.Success? then r.value else cur;
        }
      }
    }

    // Values from the payload of the item.
    method PutIndexed(ty: Ty, cur: Value, tag: nat, ghost b: Body, ghost tail: seq<byte>)
      returns (ok: bool, empty: bool, v: Value)
      requires Ready() && FieldOf(tag) >= 0 && Type(tag) != END && Type(tag) != NULL
      modifies ser`pos, this`cnt
      ensures ok ==> Ready() && old(ser.pos) <= ser.pos
      ensures BodyAt(tags, b, tag, old(Rest()), tail) ==> PutDone(pl, ty, cur, b, old(cnt), ok, empty, v, cnt)
      ensures BodyAt(tags, b, tag, old(Rest()), tail) && ok ==> Rest() == tail
    {
      var field, n := FieldOf(tag), 1;
      ok, empty, v := field < 256, false, cur;
      if ok && Type(tag) == ARRAY {
        ok, n := GetCount(tag, b, tail);
        empty := ok && n == 0;
      }
      if ok {
        ok, v := PutCounted(ty, cur, Type(tag), field, n, b);
      }
    }

    // No elements leave what is no list alone.
    method PutCounted(ty: Ty, cur: Value, t: nat, field: nat, n: nat, ghost b: Body) returns (ok: bool, v: Value)
      requires |cnt| == 256 && field < 256 && (t != ARRAY ==> n == 1)
      modifies this`cnt
      ensures |cnt| == 256
      ensures b.Indexed? && b.ty == t && b.field == field && (t == ARRAY ==> n == b.count) ==>
        PutDone(pl, ty, cur, b, old(cnt), ok, t == ARRAY && n == 0, v, cnt)
    {
      ghost var on := b.Indexed? && b.ty == t && b.field == field && (t == ARRAY ==> n == b.count);
      ok, v := true, cur;
      if t == ARRAY && n == 0 && !ty.TSlice? && !ty.TArray? {
        if on { NoneDone(pl, ty, cur, b, cnt); }
      } else {
        ok, v := TakeIndexed(ty, cur, t, field, n);
        if on { IndexedDone(pl, ty, cur, b, n, old(cnt), ok, v, cnt); }
      }
    }

    // How many elements of an array are in the payload.
    method GetCount(tag: nat, ghost b: Body, ghost tail: seq<byte>) returns (ok: bool, n: nat)
      requires ser.Valid() && 0 <= ser.pos <= ser.len && Type(tag) == ARRAY && FieldOf(tag) >= 0
      modifies ser`pos
      ensures 0 <= old(ser.pos) <= ser.pos <= ser.len
      ensures BodyAt(tags, b, tag, old(Rest()), tail) ==> ok && b.Indexed? && n == b.count && Rest() == tail
    {
      if BodyAt(tags, b, tag, Rest(), tail) { ReadNumber(b.count, tail, Rest()); }
      ok, n := GetVarUInt();
    }

    // getValue or getArray, and the counter of the field moved on
    method TakeIndexed(ty: Ty, cur: Value, t: nat, field: nat, n: nat) returns (ok: bool, v: Value)
      requires |cnt| == 256 && field < 256 && (t != ARRAY ==> n == 1)
      modifies this`cnt
      ensures |cnt| == 256
      ensures var r := PutIn(pl, ty, cur, Indexed(t, field, n), old(cnt)); ok == r.Success? && (ok ==> v == r.value)
      ensures ok ==> cnt == old(cnt)[field := old(cnt)[field] + n]
    {
      v := cur;
      ok := field in pl && cnt[field] + n <= |pl[field]|;
      if ok {
        var r := if t == ARRAY then PutArray(ty, cur, pl[field][cnt[field]..cnt[field] + n]) else PutOne(ty, cur, pl[field][cnt[field]]);
        ok, v := r.Success?, if r.Success? then r.value else cur;
        cnt := cnt[field := cnt[field] + n];
      }
    }

    method GetScalars(count: nat, tag: nat, ghost ss: seq<Scalar>, ghost tail: seq<byte>) returns (ok: bool, xs: seq<Scalar>)
      requires ser.Valid() && 0 <= ser.pos <= ser.len
      modifies ser`pos
      ensures ok ==> 0 <= old(ser.pos) <= ser.pos <= ser.len && |xs| == count
      ensures count == |ss| && ScalarsAt(tag, ss, old(Rest()), tail) ==> ok && xs == ss && Rest() == tail
    {
      ghost var on := count == |ss| && ScalarsAt(tag, ss, Rest(), tail);
      ok, xs := true, [];
      while |xs| < count && ok
        invariant ok ==> 0 <= old(ser.pos) <= ser.pos <= ser.len
        invariant |xs| <= count
        invariant on ==> ok && xs == ss[..|xs|] && ScalarsAt(tag, ss[|xs|..], Rest(), tail)
        decreases count - |xs|
      {
        ghost var left := if on then ss[|xs|..] else [SVar(0)];
        if on { EnterScalars(tag, left, Rest(), tail); }
        var x;
        ok, x := GetScalar(tag, left[0], ScalarsBytes(left[1..]) + tail);
        if on { assert left[1..] == ss[|xs| + 1..]; }
        xs := xs + [x];
      }
    }

    // decodeSlice
    method DecodeSlice(ty: Ty, cur: Value, path: seq<nat>, ghost b: Body, ghost tail: seq<byte>)
      returns (ok: bool, empty: bool, v: Value)
      requires Ready() && Container(root, tags, path) == Some(Strip(ty))
      modifies ser`pos, this`cnt, this`cache, this`missing
      ensures CacheOk(root, tags, cache, missing)
      ensures ok ==> Ready() && old(ser.pos) <= ser.pos
      ensures SliceAt(b, old(Rest()), tail) ==> PutDone(pl, ty, cur, b, old(cnt), ok, empty, v, cnt)
      ensures SliceAt(b, old(Rest()), tail) && ok ==> Rest() == tail
      decreases ser.len - ser.pos, 1
    {
      if SliceAt(b, Rest(), tail) { EnterArray(tags, b, Rest(), tail); }
      empty, v := false, cur;
      var atag;
      ok, atag := ser.GetLE(4);
      if ok {
        empty := CTags.Count(atag) == 0;
        ok, v := DecodeList(ty, cur, path, CTags.Count(atag), ElemTag(atag), b, tail);
      }
    }

    method DecodeList(ty: Ty, cur: Value, path: seq<nat>, count: nat, subtag: nat, ghost b: Body, ghost tail: seq<byte>)
      returns (ok: bool, v: Value)
      requires Ready() && Container(root, tags, path) == Some(Strip(ty))
      modifies ser`pos, this`cnt, this`cache, this`missing
      ensures CacheOk(root, tags, cache, missing)
      ensures ok ==> Ready() && old(ser.pos) <= ser.pos
      ensures ElementsAt(b, count, subtag, old(Rest()), tail) ==>
        PutDone(pl, ty, cur, b, old(cnt), ok, count == 0, v, cnt) && (ok ==> Rest() == tail)
      decreases ser.len - ser.pos, 3
    {
      v := cur;
      if !ty.TSlice? && !ty.TArray? {
        ok := count == 0;
        if ElementsAt(b, count, subtag, Rest(), tail) && ok { NoneDone(pl, ty, cur, b, cnt); }
      } else if ty.TArray? && |Elems(cur)| < count {
        ok := false;
      } else if subtag == OBJECT {
        ok, v := AddObjects(ty, cur, path, count, b, tail);
      } else {
        ok, v := AddScalars(ty, cur, count, subtag, b, tail);
      }
    }

    // What stands behind the tag of an array.
    ghost predicate ElementsAt(b: Body, count: nat, subtag: nat, rest: seq<byte>, tail: seq<byte>) {
      || (b.Arr? && count == |b.elems| && subtag == b.tag != OBJECT && ScalarsAt(b.tag, b.elems, rest, tail))
      || (b.Objs? && count == |b.docs| && subtag == OBJECT && ElemsAt(tags, b.docs, rest, tail))
    }

    // The elements behind the tag, objects or scalars, into a list.
    method AddObjects(ty: Ty, cur: Value, path: seq<nat>, count: nat, ghost b: Body, ghost tail: seq<byte>)
      returns (ok: bool, v: Value)
      requires Ready() && Container(root, tags, path) == Some(Strip(ty))
      requires (ty.TSlice? || ty.TArray?) && (ty.TArray? ==> count <= |Elems(cur)|)
      modifies ser`pos, this`cnt, this`cache, this`missing
      ensures CacheOk(root, tags, cache, missing)
      ensures ok ==> Ready() && old(ser.pos) <= ser.pos
      ensures b.Objs? && count == |b.docs| && ElemsAt(tags, b.docs, old(Rest()), tail) ==>
        PutDone(pl, ty, cur, b, old(cnt), ok, count == 0, v, cnt) && (ok ==> Rest() == tail)
      decreases ser.len - ser.pos, 2
    {
      var xs;
      v := cur;
      ok, xs := DecodeElems(ty.elem, if ty.TArray? then Elems(cur) else [], path, count, if b.Objs? then b.docs else [], tail);
      if ok {
        v := VList(if ty.TArray? then xs + Elems(cur)[count..] else Elems(cur) + xs);
      }
      if b.Objs? && count == |b.docs| && ElemsAt(tags, b.docs, old(Rest()), tail) {
        ObjsDone(pl, ty, cur, b, old(cnt), ok, xs, v, cnt);
      }
    }

    method AddScalars(ty: Ty, cur: Value, count: nat, tag: nat, ghost b: Body, ghost tail: seq<byte>) returns (ok: bool, v: Value)
      requires ser.Valid() && 0 <= ser.pos <= ser.len && (ty.TSlice? || ty.TArray?)
      modifies ser`pos
      ensures ok ==> 0 <= old(ser.pos) <= ser.pos <= ser.len
      ensures b.Arr? && count == |b.elems| && ScalarsAt(tag, b.elems, old(Rest()), tail) ==>
        PutDone(pl, ty, cur, b, cnt, ok, count == 0, v, cnt) && (ok ==> Rest() == tail)
    {
      var ss;
      v := cur;
      ok, ss := GetScalars(count, tag, if b.Arr? then b.elems else [], tail);
      if ok {
        var r := PutMany(ty, cur, ss);
        ok, v := r.Success?, if r.Success? then r.value else cur;
      }
      if b.Arr? && count == |b.elems| && ScalarsAt(tag, b.elems, old(Rest()), tail) {
        ScalarsDone(pl, ty, cur, b, cnt, ok, v);
      }
    }

    ghost predicate SliceAt(b: Body, rest: seq<byte>, tail: seq<byte>) {
      BodyFits(tags, b) && rest == BodyBytes(tags, b) + tail && (b.Arr? || b.Objs?)
    }

    method DecodeElems(e: Ty, olds: seq<Value>, path: seq<nat>, count: nat, ghost ds: seq<Doc>, ghost tail: seq<byte>)
      returns (ok: bool, xs: seq<Value>)
      requires Ready() && Container(root, tags, path) == Some(Strip(e))
      modifies ser`pos, this`cnt, this`cache, this`missing
      ensures CacheOk(root, tags, cache, missing)
      ensures ok ==> Ready() && old(ser.pos) <= ser.pos && |xs| == count
      ensures count == |ds| && ElemsAt(tags, ds, old(Rest()), tail) ==>
        var r := DecElems(pl, e, olds, ds, old(cnt));
        ok == r.Success? && (ok ==> xs == r.value && Rest() == tail && cnt == CountDocs(ds, old(cnt)))
      decreases ser.len - ser.pos, 1
    {
      ghost var on, cnt0 := count == |ds| && ElemsAt(tags, ds, Rest(), tail), cnt;
      ghost var left := ds;
      var into := olds;
      ok, xs := true, [];
      ElemsStart(pl, e, olds, ds, cnt);
      while |xs| < count && ok
        invariant |xs| <= count
        invariant CacheOk(root, tags, cache, missing)
        invariant ok ==> Ready() && old(ser.pos) <= ser.pos
        invariant on && ok ==> |left| == count - |xs| && ElemsAt(tags, left, Rest(), tail)
        invariant on && ok ==> ElemsSoFar(pl, e, olds, ds, cnt0, xs, into, left, cnt)
        invariant on && !ok ==> DecElems(pl, e, olds, ds, cnt0).Failure?
        decreases count - |xs|
      {
        ghost var after := if left == [] then [] else DocsBytes(tags, left[1..]) + tail;
        if on {
          EnterElems(tags, left, Rest(), tail);
          ElemsStep(pl, e, olds, ds, cnt0, xs, into, left, cnt);
        }
        var more, x;
        ok, more, x := DecodeValue(e, if into == [] then Zero(e) else into[0], path, Next(left), after);
        into := if into == [] then [] else into[1..];
        left := if left == [] then [] else left[1..];
        xs := xs + [x];
      }
      if on && ok { ElemsEnd(pl, e, olds, ds, cnt0, xs, into, left, cnt); }
    }

    // The loop over the values of an object.
    method DecodeFields(ty: Ty, cur: Value, path: seq<nat>, ghost ds: seq<Doc>, ghost tail: seq<byte>)
      returns (ok: bool, v: Value)
      requires Ready() && Container(root, tags, path) == Some(Strip(ty))
      modifies ser`pos, this`cnt, this`cache, this`missing
      ensures CacheOk(root, tags, cache, missing)
      ensures ok ==> Ready() && old(ser.pos) <= ser.pos
      ensures FieldsAt(tags, ds, old(Rest()), tail) ==>
        var r := DecAll(pl, ty, cur, ds, old(cnt));
        ok == r.Success? && (ok ==> v == r.value && Rest() == tail && cnt == CountDocs(ds, old(cnt)))
      decreases ser.len - ser.pos, 1
    {
      ghost var on := FieldsAt(tags, ds, Rest(), tail);
      ghost var left := ds;
      var more := true;
      ok, v := true, cur;
      while more
        invariant !ok ==> !more
        invariant CacheOk(root, tags, cache, missing)
        invariant ok ==> Ready() && old(ser.pos) <= ser.pos
        invariant on && ok ==> DecAll(pl, ty, v, left, cnt) == DecAll(pl, ty, cur, ds, old(cnt))
        invariant on && ok ==> CountDocs(left, cnt) == CountDocs(ds, old(cnt))
        invariant on && !ok ==> DecAll(pl, ty, cur, ds, old(cnt)).Failure?
        invariant on && more ==> FieldsAt(tags, left, Rest(), tail)
        invariant on && ok && !more ==> left == [] && Rest() == tail
        decreases if more then ser.len - ser.pos + 1 else 0
      {
        if on { EnterFields(tags, left, Rest(), tail); }
        ok, more, v := DecodeValue(ty, v, path, Next(left), AfterNext(tags, left, tail));
        more := more && ok;
        left := if left == [] then [] else left[1..];
      }
    }

    // Decode: the value at the start of the bytes, into cur. Whatever the caches hold,
    // the result is that of decoding the tree.
    method Decode(cur: Value, ghost d: Doc, ghost tail: seq<byte>) returns (ok: bool, v: Value)
      requires Ready()
      modifies ser`pos, this`cnt, this`cache, this`missing
      ensures CacheOk(root, tags, cache, missing)
      ensures ok ==> Ready()
      ensures DocFits(tags, d) && old(Rest()) == DocBytes(tags, d) + tail ==>
        var r := Dec(pl, root, cur, d, old(cnt));
        ok == r.Success? && (ok ==> v == r.value && Rest() == tail && cnt == CountDoc(d, old(cnt)))
    {
      var more;
      ok, more, v := DecodeValue(root, cur, [], Some(d), tail);
    }
  }

  // Elements decoded already, in front of the others.
  function Behind(xs: seq<Value>, r: Result<seq<Value>, Fault>): Result<seq<Value>, Fault> {
    if r.Success? then Success(xs + r.value) else r
  }

  // How far the elements of an array are decoded: xs of them, into the first of olds.
  ghost predicate ElemsSoFar(pl: Payload, e: Ty, olds: seq<Value>, ds: seq<Doc>, cnt0: Counters,
                             xs: seq<Value>, into: seq<Value>, left: seq<Doc>, cnt: Counters)
  {
    && DecElems(pl, e, olds, ds, cnt0) == Behind(xs, DecElems(pl, e, into, left, cnt))
    && CountDocs(ds, cnt0) == CountDocs(left, cnt)
  }

  lemma ElemsStart(pl: Payload, e: Ty, olds: seq<Value>, ds: seq<Doc>, cnt: Counters)
    ensures ElemsSoFar(pl, e, olds, ds, cnt, [], olds, ds, cnt)
  {
    var all := DecElems(pl, e, olds, ds, cnt);
    assert all.Success? ==> [] + all.value == all.value;
  }

  lemma ElemsStep(pl: Payload, e: Ty, olds: seq<Value>, ds: seq<Doc>, cnt0: Counters,
                  xs: seq<Value>, into: seq<Value>, left: seq<Doc>, cnt: Counters)
    requires left != [] && ElemsSoFar(pl, e, olds, ds, cnt0, xs, into, left, cnt)
    ensures var r := Dec(pl, e, if into == [] then Zero(e) else into[0], left[0], cnt);
      if r.Failure? then DecElems(pl, e, olds, ds, cnt0).Failure?
      else ElemsSoFar(pl, e, olds, ds, cnt0, xs + [r.value], if into == [] then [] else into[1..], left[1..], CountDoc(left[0], cnt))
  {
    var r := Dec(pl, e, if into == [] then Zero(e) else into[0], left[0], cnt);
    if r.Success? {
      var rest := DecElems(pl, e, if into == [] then [] else into[1..], left[1..], CountDoc(left[0], cnt));
      if rest.Success? {
        assert xs + ([r.value] + rest.value) == xs + [r.value] + rest.value;
      }
    }
  }

  lemma ElemsEnd(pl: Payload, e: Ty, olds: seq<Value>, ds: seq<Doc>, cnt0: Counters,
                 xs: seq<Value>, into: seq<Value>, left: seq<Doc>, cnt: Counters)
    requires left == [] && ElemsSoFar(pl, e, olds, ds, cnt0, xs, into, left, cnt)
    ensures DecElems(pl, e, olds, ds, cnt0) == Success(xs) && cnt == CountDocs(ds, cnt0)
  {
    assert xs + [] == xs;
  }

  lemma {:induction false} StoredThere(c: Cache, path: seq<nat>, idx: seq<nat>)
    requires path != [] && Find(c, path).Some?
    ensures Find(Store(c, path, idx), path) == Some(idx)
    decreases |path|
  {
    if |path| > 1 {
      StoredThere(c.entries[path[0]].subCache, path[1..], idx);
    }
  }
}
