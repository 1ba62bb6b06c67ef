// Go types and typed values, as reflection shows them to the codec.

module GoTypes {
  import opened Wrappers
  import opened Varint
  import opened CjsonWire

  // A struct field: its name in CJSON (the json tag, or else the Go name), whether that
  // comes from a tag, whether it is an embedded struct, whether it has `omitempty`, and
  // whether the encoder passes over it (unexported, "-", joined, composite).
  datatype Field = Field(name: Text, tagged: bool, embedded: bool, omitEmpty: bool, skip: bool, ty: Ty)

  datatype Ty =
    | TInt(bits: nat, signed: bool)
    | TBool
    | TFloat32
    | TFloat64
    | TString
    | TSlice(elem: Ty)
    | TArray(len: nat, elem: Ty)
    | TPtr(to: Ty)
    | TMap(elem: Ty)
    | TStruct(fields: seq<Field>)

  // VNil is the nil slice, map or pointer; VBits a floating-point number by its bits.
  datatype Value =
    | VNil
    | VInt(i: int)
    | VBool(b: bool)
    | VBits(bits: nat)
    | VStr(s: Text)
    | VList(elems: seq<Value>)
    | VPtr(to: Value)
    | VMap(entries: seq<(Text, Value)>)
    | VStruct(fields: seq<Value>)

  predicate IsScalar(ty: Ty) { ty.TInt? || ty.TBool? || ty.TFloat32? || ty.TFloat64? || ty.TString? }

  predicate Nullable(ty: Ty) { ty.TPtr? || ty.TMap? || ty.TSlice? }

  // The conversion of a 64-bit number to an integer type.
  function Wrap(bits: nat, signed: bool, v: int): int {
    if bits == 8 then (if signed then Sign(v % 0x100, 0x100) else v % 0x100)
    else if bits == 16 then (if signed then Sign(v % 0x1_0000, 0x1_0000) else v % 0x1_0000)
    else if bits == 32 then (if signed then Sign(v % 0x1_0000_0000, 0x1_0000_0000) else v % 0x1_0000_0000)
    else if signed then Sign(v % 0x1_0000_0000_0000_0000, 0x1_0000_0000_0000_0000) else v % 0x1_0000_0000_0000_0000
  }

  function Sign(u: nat, m: nat): int { if u >= m / 2 then u - m else u }

  // int64(v)
  function ToInt64(v: int): int { Wrap(64, true, v) }

  function Zero(ty: Ty): Value
    decreases ty, 1
  {
    match ty
    case TInt(_, _) => VInt(0)
    case TBool => VBool(false)
    case TFloat32 => VBits(0)
    case TFloat64 => VBits(0)
    case TString => VStr([])
    case TSlice(_) => VNil
    case TArray(n, e) => VList(seq(n, i => Zero(e)))
    case TPtr(_) => VNil
    case TMap(_) => VNil
    case TStruct(_) => VStruct(ZeroFields(ty, 0))
  }

  function ZeroFields(ty: Ty, i: nat): (vs: seq<Value>)
    requires ty.TStruct? && i <= |ty.fields|
    ensures |vs| == |ty.fields| - i
    ensures forall k :: 0 <= k < |vs| ==> vs[k] == Zero(ty.fields[i + k].ty)
    decreases ty, 0, |ty.fields| - i
  {
    if i == |ty.fields| then [] else [Zero(ty.fields[i].ty)] + ZeroFields(ty, i + 1)
  }

  predicate HasType(ty: Ty, v: Value)
    decreases ty
  {
    match ty
    case TInt(bits, signed) => v.VInt? && Wrap(bits, signed, v.i) == v.i
    case TBool => v.VBool?
    case TFloat32 => v.VBits? && v.bits < 0x1_0000_0000
    case TFloat64 => v.VBits? && v.bits < 0x1_0000_0000_0000_0000
    case TString => v.VStr?
    case TSlice(e) => v.VNil? || (v.VList? && forall i :: 0 <= i < |v.elems| ==> HasType(e, v.elems[i]))
    case TArray(n, e) => v.VList? && |v.elems| == n && forall i :: 0 <= i < n ==> HasType(e, v.elems[i])
    case TPtr(t) => v.VNil? || (v.VPtr? && HasType(t, v.to))
    case TMap(e) =>
      v.VNil? || (v.VMap? && (forall i :: 0 <= i < |v.entries| ==> HasType(e, v.entries[i].1)) && DistinctKeys(v.entries))
    case TStruct(fs) =>
      v.VStruct? && |v.fields| == |fs| && forall i :: 0 <= i < |fs| ==> HasType(fs[i].ty, v.fields[i])
  }

  predicate DistinctKeys(entries: seq<(Text, Value)>) {
    forall i, j :: 0 <= i < j < |entries| ==> entries[i].0 != entries[j].0
  }

  // The types covered: no pointers to pointers (the encoder refuses them), no byte
  // slices or arrays (base64 strings in CJSON); structs embedded by value; a name that is
  // written is answered to first by the field that writes it, or, when it belongs to an
  // embedded struct with a json tag, by no field at all.
  predicate Covered(ty: Ty)
    decreases ty
  {
    match ty
    case TInt(bits, _) => bits in {8, 16, 32, 64}
    case TSlice(e) => e != TInt(8, false) && Covered(e)
    case TArray(_, e) => e != TInt(8, false) && Covered(e)
    case TPtr(t) => !t.TPtr? && Covered(t)
    case TMap(e) => Covered(e)
    case TStruct(fs) =>
      && (forall i :: 0 <= i < |fs| ==> Covered(fs[i].ty))
      && (forall i :: 0 <= i < |fs| && fs[i].embedded ==> fs[i].ty.TStruct?)
      && (forall i, j :: 0 <= i < j < |fs| ==> NamesOf(fs[i]) !! OwnKeysOf(fs[j]))
      && Strays(ty, 0) !! Names(ty, 0)
    case _ => true
  }

  // ---- the names that are written ----

  predicate Flattened(f: Field) { f.embedded && !f.tagged && f.ty.TStruct? }

  // The names field i is written under. An embedded struct, tagged or not, writes its
  // fields in the place of its own.
  function KeysOf(f: Field): set<Text>
    decreases f.ty, 1
  {
    if f.skip then {} else if f.embedded && f.ty.TStruct? then Keys(f.ty, 0) else {f.name}
  }

  function Keys(ty: Ty, i: nat): set<Text>
    requires ty.TStruct? && i <= |ty.fields|
    decreases ty, 0, |ty.fields| - i
  {
    if i == |ty.fields| then {} else KeysOf(ty.fields[i]) + Keys(ty, i + 1)
  }

  // Of those, the names it answers to when they are read,
  function OwnKeysOf(f: Field): set<Text>
    decreases f.ty, 1
  {
    if f.skip then {} else if Flattened(f) then OwnKeys(f.ty, 0) else if f.embedded && f.ty.TStruct? then {} else {f.name}
  }

  function OwnKeys(ty: Ty, i: nat): set<Text>
    requires ty.TStruct? && i <= |ty.fields|
    decreases ty, 0, |ty.fields| - i
  {
    if i == |ty.fields| then {} else OwnKeysOf(ty.fields[i]) + OwnKeys(ty, i + 1)
  }

  // and the names that lead nowhere: those of an embedded struct with a tag.
  function StraysOf(f: Field): set<Text>
    decreases f.ty, 1
  {
    if f.skip then {} else if Flattened(f) then Strays(f.ty, 0) else if f.embedded && f.ty.TStruct? then Keys(f.ty, 0) else {}
  }

  function Strays(ty: Ty, i: nat): set<Text>
    requires ty.TStruct? && i <= |ty.fields|
    decreases ty, 0, |ty.fields| - i
  {
    if i == |ty.fields| then {} else StraysOf(ty.fields[i]) + Strays(ty, i + 1)
  }

  lemma {:induction false} OwnKeysAreNames(ty: Ty, i: nat)
    requires ty.TStruct? && i <= |ty.fields|
    ensures OwnKeys(ty, i) <= Names(ty, i)
    decreases ty, 0, |ty.fields| - i
  {
    if i < |ty.fields| {
      OwnKeyIsName(ty.fields[i]);
      OwnKeysAreNames(ty, i + 1);
    }
  }

  lemma {:induction false} OwnKeyIsName(f: Field)
    ensures OwnKeysOf(f) <= NamesOf(f)
    decreases f.ty, 1
  {
    if Flattened(f) {
      OwnKeysAreNames(f.ty, 0);
    }
  }

  // ---- fields by name: fieldByTag ----

  // The names field i answers to, through embedding.
  function NamesOf(f: Field): set<Text>
    decreases f.ty, 1
  {
    if Flattened(f) then Names(f.ty, 0) else {f.name}
  }

  function Names(ty: Ty, i: nat): set<Text>
    requires ty.TStruct? && i <= |ty.fields|
    decreases ty, 0, |ty.fields| - i
  {
    if i == |ty.fields| then {} else NamesOf(ty.fields[i]) + Names(ty, i + 1)
  }

  predicate DistinctNames(fs: seq<Field>) {
    forall i, j :: 0 <= i < j < |fs| ==> NamesOf(fs[i]) !! NamesOf(fs[j])
  }

  // The index path of the first field that answers to the name.
  function Locate(ty: Ty, i: nat, name: Text): (r: Option<seq<nat>>)
    requires ty.TStruct? && i <= |ty.fields|
    ensures r.Some? ==> IsPath(ty, r.value) && i <= r.value[0]
    ensures r.Some? <==> name in Names(ty, i)
    decreases ty, |ty.fields| - i
  {
    if i == |ty.fields| then None
    else
      var f := ty.fields[i];
      if Flattened(f) then
        match Locate(f.ty, 0, name)
        case Some(p) => Some([i] + p)
        case None => Locate(ty, i + 1, name)
      else if f.name == name then Some([i])
      else Locate(ty, i + 1, name)
  }

  predicate IsPath(ty: Ty, path: seq<nat>)
    decreases path
  {
    && path != [] && ty.TStruct? && path[0] < |ty.fields|
    && (|path| > 1 ==> IsPath(ty.fields[path[0]].ty, path[1..]))
  }

  function TypeAt(ty: Ty, path: seq<nat>): Ty
    requires IsPath(ty, path)
    decreases path
  {
    if |path| == 1 then ty.fields[path[0]].ty else TypeAt(ty.fields[path[0]].ty, path[1..])
  }

  // FieldByIndex
  function At(v: Value, path: seq<nat>): Option<Value>
    requires path != []
    decreases path
  {
    if !v.VStruct? || path[0] >= |v.fields| then None
    else if |path| == 1 then Some(v.fields[path[0]])
    else At(v.fields[path[0]], path[1..])
  }

  function SetAt(v: Value, path: seq<nat>, x: Value): Value
    requires path != []
    decreases path
  {
    if !v.VStruct? || path[0] >= |v.fields| then v
    else VStruct(v.fields[path[0] := if |path| == 1 then x else SetAt(v.fields[path[0]], path[1..], x)])
  }

  // SetMapIndex: entries in the order in which keys were first set
  function SetKey(v: Value, key: Text, x: Value): Value {
    if v.VMap? then VMap(SetEntry(v.entries, key, x)) else VMap([(key, x)])
  }

  function SetEntry(entries: seq<(Text, Value)>, key: Text, x: Value): seq<(Text, Value)> {
    if entries == [] then [(key, x)]
    else if entries[0].0 == key then [(key, x)] + entries[1..]
    else [entries[0]] + SetEntry(entries[1..], key, x)
  }
}
