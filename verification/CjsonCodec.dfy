// What the encoder writes and the decoder makes of it, on document trees.

module CjsonCodec {
  import opened Wrappers
  import opened Varint
  import opened CTags
  import opened CjsonWire
  import opened GoTypes
  import opened Floats

  // ---- encoding ----

  predicate ZeroFloat(bits: nat, top: nat) { bits == 0 || bits == top }

  // The subtag of an array of scalars.
  function SubTag(e: Ty): nat {
    match e
    case TInt(_, _) => VARINT
    case TFloat32 => FLOAT
    case TFloat64 => DOUBLE
    case TBool => BOOL
    case TString => STRING
    case _ => OBJECT
  }

  // An element of a scalar slice or array. Unsigned elements of a fixed-size array are
  // written as they are, though the reader takes every VARINT for zig-zag; float32 ones
  // go through float64, which slices avoid.
  function EncScalar(e: Ty, fixed: bool, v: Value): Scalar {
    match v
    case VInt(i) => if fixed && e.TInt? && !e.signed && i >= 0 then SVar(UnZigZag(i)) else SVar(ToInt64(i))
    case VBits(n) => if e.TFloat32? then SFloat(if fixed then Quiet(n) else n) else SDouble(n)
    case VBool(b) => SBool(if b then 1 else 0)
    case VStr(s) => SStr(s)
    case _ => SVar(0)
  }

  function Elems(v: Value): seq<Value> { if v.VList? then v.elems else [] }
  function Entries(v: Value): seq<(Text, Value)> { if v.VMap? then v.entries else [] }
  function Fields(v: Value): seq<Value> { if v.VStruct? then v.fields else [] }

  // encodeValue: no document for a value left out, one otherwise
  function Enc(key: Option<Text>, omit: bool, ty: Ty, v: Value): (r: seq<Doc>)
    ensures |r| <= 1
    ensures r != [] ==> r[0].key == key
    decreases ty, 3
  {
    if Nullable(ty) && v.VNil? then (if omit then [] else [Doc(key, Null)])
    else if ty.TPtr? then (if v.VPtr? then EncIn(key, omit, ty.to, v.to) else [])
    else EncIn(key, omit, ty, v)
  }

  function EncIn(key: Option<Text>, omit: bool, ty: Ty, v: Value): (r: seq<Doc>)
    ensures |r| <= 1
    ensures r != [] ==> r[0].key == key && !r[0].body.Null?
    decreases ty, 2
  {
    match ty
    case TInt(_, _) => if v.VInt? && !(omit && v.i == 0) then [Doc(key, Sc(SVar(ToInt64(v.i))))] else []
    case TBool => if v.VBool? && !(omit && !v.b) then [Doc(key, Sc(SBool(if v.b then 1 else 0)))] else []
    case TFloat32 =>
      if v.VBits? && v.bits < 0x1_0000_0000 && !(omit && ZeroFloat(v.bits, 0x8000_0000))
      then [Doc(key, Sc(SDouble(Widen(v.bits))))] else []
    case TFloat64 =>
      if v.VBits? && !(omit && ZeroFloat(v.bits, 0x8000_0000_0000_0000)) then [Doc(key, Sc(SDouble(v.bits)))] else []
    case TString => if v.VStr? && !(omit && v.s == []) then [Doc(key, Sc(SStr(v.s)))] else []
    case TSlice(e) => EncList(key, omit, ty, e, Elems(v))
    case TArray(_, e) => EncList(key, omit, ty, e, Elems(v))
    case TMap(e) => [Doc(key, Obj(EncEntries(e, Entries(v))))]
    case TStruct(fs) => [Doc(key, Obj(if |Fields(v)| == |fs| then EncFields(ty, Fields(v), 0) else []))]
    case TPtr(_) => []
  }

  function EncList(key: Option<Text>, omit: bool, ty: Ty, e: Ty, elems: seq<Value>): (r: seq<Doc>)
    requires (ty.TSlice? || ty.TArray?) && e == ty.elem
    ensures |r| <= 1
    ensures r != [] ==> r[0].key == key && !r[0].body.Null?
    decreases ty, 1
  {
    if omit && elems == [] then []
    else if IsScalar(e) then [Doc(key, Arr(SubTag(e), EncScalars(e, ty.TArray?, elems)))]
    else [Doc(key, Objs(EncElems(e, elems)))]
  }

  function EncScalars(e: Ty, fixed: bool, vs: seq<Value>): (r: seq<Scalar>)
    ensures |r| == |vs| && forall i :: 0 <= i < |vs| ==> r[i] == EncScalar(e, fixed, vs[i])
  {
    if vs == [] then [] else [EncScalar(e, fixed, vs[0])] + EncScalars(e, fixed, vs[1..])
  }

  function EncElems(e: Ty, vs: seq<Value>): seq<Doc>
    decreases e, 4, |vs|
  {
    if vs == [] then [] else Enc(None, false, e, vs[0]) + EncElems(e, vs[1..])
  }

  function EncEntries(e: Ty, entries: seq<(Text, Value)>): seq<Doc>
    decreases e, 4, |entries|
  {
    if entries == [] then [] else Enc(Some(entries[0].0), false, e, entries[0].1) + EncEntries(e, entries[1..])
  }

  // encodeStruct from field i on; an embedded struct's fields go in the place of its own
  function EncFields(ty: Ty, vs: seq<Value>, i: nat): seq<Doc>
    requires ty.TStruct? && |vs| == |ty.fields| && i <= |vs|
    decreases ty, 1, |vs| - i
  {
    if i == |vs| then [] else EncField(ty.fields[i], vs[i]) + EncFields(ty, vs, i + 1)
  }

  function EncField(f: Field, v: Value): seq<Doc>
    decreases f.ty, 4
  {
    if f.skip then []
    else if f.embedded && f.ty.TStruct? then
      if |Fields(v)| == |f.ty.fields| then EncFields(f.ty, Fields(v), 0) else []
    else Enc(Some(f.name), f.omitEmpty, f.ty, v)
  }

  // ---- what the encoder can encode ----

  // A slice of scalars is written from the memory behind it. A nil one has none, and the
  // encoder panics; it gets that far only behind a pointer and without omitempty.
  predicate Encodes(omit: bool, ty: Ty, v: Value)
    decreases ty, 3
  {
    if Nullable(ty) && v.VNil? then true
    else if ty.TPtr? then v.VPtr? ==> EncodesIn(omit, ty.to, v.to)
    else EncodesIn(omit, ty, v)
  }

  predicate EncodesIn(omit: bool, ty: Ty, v: Value)
    decreases ty, 2
  {
    match ty
    case TSlice(e) =>
      if omit && Elems(v) == [] then true else if IsScalar(e) then !v.VNil? else EncodesElems(e, Elems(v))
    case TArray(_, e) => IsScalar(e) || EncodesElems(e, Elems(v))
    case TMap(e) => EncodesEntries(e, Entries(v))
    case TStruct(fs) => |Fields(v)| == |fs| ==> EncodesFields(ty, Fields(v), 0)
    case _ => true
  }

  predicate EncodesElems(e: Ty, vs: seq<Value>)
    decreases e, 4, |vs|
  {
    vs == [] || (Encodes(false, e, vs[0]) && EncodesElems(e, vs[1..]))
  }

  predicate EncodesEntries(e: Ty, entries: seq<(Text, Value)>)
    decreases e, 4, |entries|
  {
    entries == [] || (Encodes(false, e, entries[0].1) && EncodesEntries(e, entries[1..]))
  }

  predicate EncodesFields(ty: Ty, vs: seq<Value>, i: nat)
    requires ty.TStruct? && |vs| == |ty.fields| && i <= |vs|
    decreases ty, 1, |vs| - i
  {
    i == |vs| || (EncodesField(ty.fields[i], vs[i]) && EncodesFields(ty, vs, i + 1))
  }

  predicate EncodesField(f: Field, v: Value)
    decreases f.ty, 5
  {
    f.skip || EncodesInfo(f.omitEmpty, f.embedded, f.ty, v)
  }

  predicate EncodesInfo(omit: bool, embedded: bool, ty: Ty, v: Value)
    decreases ty, 4
  {
    if embedded && ty.TStruct? then |Fields(v)| == |ty.fields| ==> EncodesFields(ty, Fields(v), 0)
    else Encodes(omit, ty, v)
  }

  // ---- decoding ----

  datatype Fault = Fault

  // The values of an item's payload fields.
  type Payload = map<nat, seq<Scalar>>

  // fieldsoutcnt
  type Counters = seq<nat>

  function CountBody(b: Body, cnt: Counters): (r: Counters)
    ensures |r| == |cnt|
    decreases b, 0
  {
    match b
    case Objs(docs) => CountDocs(docs, cnt)
    case Obj(fields) => CountDocs(fields, cnt)
    case Indexed(ty, field, count) =>
      if field < |cnt| then cnt[field := cnt[field] + (if ty == ARRAY then count else 1)] else cnt
    case _ => cnt
  }

  function CountDoc(d: Doc, cnt: Counters): (r: Counters)
    ensures |r| == |cnt|
    decreases d, 1
  {
    CountBody(d.body, cnt)
  }

  function CountDocs(ds: seq<Doc>, cnt: Counters): (r: Counters)
    ensures |r| == |cnt|
    decreases ds, 2
  {
    if ds == [] then cnt else CountDocs(ds[1..], CountDoc(ds[0], cnt))
  }

  function PutScalar(ty: Ty, s: Scalar): Result<Value, Fault> {
    match ty
    case TInt(bits, signed) =>
      if s.SVar? then Success(VInt(Wrap(bits, signed, s.i)))
      else if s.SBool? then Success(VInt(Wrap(bits, signed, s.n))) else Failure(Fault)
    case TBool =>
      if s.SVar? then Success(VBool(s.i != 0)) else if s.SBool? then Success(VBool(s.n != 0)) else Failure(Fault)
    case TFloat64 =>
      if s.SDouble? then Success(VBits(s.bits))
      else if s.SFloat? && s.bits < 0x1_0000_0000 then Success(VBits(Widen(s.bits))) else Failure(Fault)
    case TFloat32 =>
      if s.SFloat? then Success(VBits(Quiet(s.bits)))
      else if s.SDouble? && s.bits < 0x1_0000_0000_0000_0000 && Narrow(s.bits).Some? then Success(VBits(Narrow(s.bits).value))
      else Failure(Fault)
    case TString => if s.SStr? then Success(VStr(s.s)) else Failure(Fault)
    case _ => Failure(Fault)
  }

  // An element of an array: float32s are copied as they are.
  function PutElem(ty: Ty, s: Scalar): Result<Value, Fault> {
    if ty.TFloat32? && s.SFloat? then Success(VBits(s.bits)) else PutScalar(ty, s)
  }

  function PutScalars(ty: Ty, ss: seq<Scalar>): (r: Result<seq<Value>, Fault>)
    ensures r.Success? ==> |r.value| == |ss|
  {
    if ss == [] then Success([])
    else
      var x := if ty.TPtr? then PutScalar(ty.to, ss[0]) else PutElem(ty, ss[0]);
      var rest := PutScalars(ty, ss[1..]);
      if x.Success? && rest.Success? then Success([if ty.TPtr? then VPtr(x.value) else x.value] + rest.value)
      else Failure(Fault)
  }

  // A single scalar: into a scalar, or at the end of a slice.
  function PutOne(ty: Ty, cur: Value, s: Scalar): Result<Value, Fault> {
    if ty.TSlice? then
      var x := PutScalar(ty.elem, s);
      if x.Success? then Success(VList(Elems(cur) + [x.value])) else Failure(Fault)
    else PutScalar(ty, s)
  }

  // Scalars of an array: behind what the slice has, or over the start of a fixed array.
  function PutMany(ty: Ty, cur: Value, ss: seq<Scalar>): Result<Value, Fault> {
    if ty.TSlice? then
      var xs := PutScalars(ty.elem, ss);
      if xs.Success? then Success(VList(Elems(cur) + xs.value)) else Failure(Fault)
    else if ty.TArray? then
      var xs := PutScalars(ty.elem, ss);
      if xs.Success? && |ss| <= |Elems(cur)| then Success(VList(xs.value + Elems(cur)[|ss|..])) else Failure(Fault)
    else Failure(Fault)
  }

  // getArray: only into slices, and no elements empty the slice
  function PutArray(ty: Ty, cur: Value, ss: seq<Scalar>): Result<Value, Fault> {
    if !ty.TSlice? then Failure(Fault)
    else if ss == [] then Success(VList([]))
    else PutMany(ty, cur, ss)
  }

  // decodeValue of one document into a destination of type ty holding cur
  function Dec(pl: Payload, ty: Ty, cur: Value, d: Doc, cnt: Counters): Result<Value, Fault>
    decreases d, 5
  {
    if d.body.Null? then Success(cur)
    else match d.key
    case None => Put(pl, ty, cur, d.body, cnt)
    case Some(name) => DecKeyed(pl, ty, cur, name, d.body, cnt)
  }

  // A named document, its container behind a pointer or not.
  function DecKeyed(pl: Payload, ty: Ty, cur: Value, name: Text, b: Body, cnt: Counters): Result<Value, Fault>
    decreases b, 5
  {
    if ty.TPtr? then
      var r := DecNamed(pl, ty.to, if cur.VPtr? then cur.to else Zero(ty.to), name, b, cnt);
      if r.Success? then Success(VPtr(r.value)) else r
    else DecNamed(pl, ty, cur, name, b, cnt)
  }

  // A named document: a map entry or a struct field; a name the struct lacks is skipped.
  function DecNamed(pl: Payload, ty: Ty, cur: Value, name: Text, b: Body, cnt: Counters): Result<Value, Fault>
    decreases b, 4
  {
    if ty.TMap? then
      var r := Put(pl, ty.elem, Zero(ty.elem), b, cnt);
      if r.Success? then Success(SetKey(cur, name, ForMap(ty.elem, b, r.value))) else r
    else if ty.TStruct? then
      match Locate(ty, 0, name)
      case None => Success(cur)
      case Some(path) =>
        if At(cur, path).None? then Failure(Fault)
        else
          var r := Put(pl, TypeAt(ty, path), At(cur, path).value, b, cnt);
          if r.Success? then Success(SetAt(cur, path, r.value)) else r
    else Failure(Fault)
  }

  // The part of decodeValue behind the choice of the destination.
  function Put(pl: Payload, ty: Ty, cur: Value, b: Body, cnt: Counters): Result<Value, Fault>
    decreases b, 3
  {
    if ty.TPtr? then
      if EmptyArray(b) && !ty.to.TSlice? && !ty.to.TArray? then Success(VNil)
      else
        var r := PutIn(pl, ty.to, if cur.VPtr? then cur.to else Zero(ty.to), b, cnt);
        if r.Success? then Success(VPtr(r.value)) else r
    else if EmptyArray(b) && !ty.TSlice? && !ty.TArray? then Success(Zero(ty))
    else PutIn(pl, ty, cur, b, cnt)
  }

  // What goes into a map: where an array without elements leaves a pointer nil, the map
  // gets the address of the zero value that was allocated for it.
  function ForMap(e: Ty, b: Body, v: Value): Value {
    if e.TPtr? && EmptyArray(b) && !e.to.TSlice? && !e.to.TArray? then VPtr(Zero(e.to)) else v
  }

  predicate EmptyArray(b: Body) {
    (b.Arr? && b.elems == []) || (b.Objs? && b.docs == []) || (b.Indexed? && b.ty == ARRAY && b.count == 0)
  }

  function PutIn(pl: Payload, ty: Ty, cur: Value, b: Body, cnt: Counters): Result<Value, Fault>
    decreases b, 2
  {
    match b
    case Null => Success(cur)
    case Sc(s) => PutOne(ty, cur, s)
    case Arr(_, elems) => PutMany(ty, cur, elems)
    case Objs(docs) =>
      if ty.TSlice? then
        var r := DecElems(pl, ty.elem, [], docs, cnt);
        if r.Success? then Success(VList(Elems(cur) + r.value)) else Failure(Fault)
      else if ty.TArray? && |docs| <= |Elems(cur)| then
        var r := DecElems(pl, ty.elem, Elems(cur), docs, cnt);
        if r.Success? then Success(VList(r.value + Elems(cur)[|docs|..])) else Failure(Fault)
      else Failure(Fault)
    case Obj(fields) => DecAll(pl, ty, cur, fields, cnt)
    case Indexed(t, field, count) =>
      if field !in pl || field >= |cnt| then Failure(Fault)
      else if t == ARRAY then
        if cnt[field] + count <= |pl[field]| then PutArray(ty, cur, pl[field][cnt[field]..cnt[field] + count]) else Failure(Fault)
      else if cnt[field] < |pl[field]| then PutOne(ty, cur, pl[field][cnt[field]])
      else Failure(Fault)
  }

  // The documents of an object, one after another into the same destination.
  function DecAll(pl: Payload, ty: Ty, cur: Value, ds: seq<Doc>, cnt: Counters): Result<Value, Fault>
    decreases ds, 6
  {
    if ds == [] then Success(cur)
    else
      var r := Dec(pl, ty, cur, ds[0], cnt);
      if r.Success? then DecAll(pl, ty, r.value, ds[1..], CountDoc(ds[0], cnt)) else r
  }

  // The documents of an array, each into an element of its own: `olds` of a fixed
  // array, fresh ones of a slice.
  function DecElems(pl: Payload, e: Ty, olds: seq<Value>, ds: seq<Doc>, cnt: Counters): Result<seq<Value>, Fault>
    decreases ds, 6
  {
    if ds == [] then Success([])
    else
      var r := Dec(pl, e, if olds == [] then Zero(e) else olds[0], ds[0], cnt);
      if r.Failure? then Failure(Fault)
      else
        var rest := DecElems(pl, e, if olds == [] then [] else olds[1..], ds[1..], CountDoc(ds[0], cnt));
        if rest.Success? then Success([r.value] + rest.value) else rest
  }
}
