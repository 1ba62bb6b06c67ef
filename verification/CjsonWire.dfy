// CJSON documents: the tree of tagged values a tuple stands for, and its bytes.

module CjsonWire {
  import opened Wrappers
  import opened Varint
  import opened CTags

  // A Go string or name: its length is an int.
  type Text = s: seq<byte> | |s| < 0x8000_0000_0000_0000

  // A value without a tag of its own; VARINT and BOOL are read as signed and unsigned.
  datatype Scalar =
    | SVar(i: int) | SDouble(bits: nat) | SStr(s: Text) | SBool(n: nat) | SFloat(bits: nat) | SUuid(hi: nat, lo: nat)

  // `Indexed` stands for a value, or `count` array elements, kept in the payload fields
  // of an item rather than in its tuple.
  datatype Body =
    | Null
    | Sc(s: Scalar)
    | Arr(tag: nat, elems: seq<Scalar>)
    | Objs(docs: seq<Doc>)
    | Obj(fields: seq<Doc>)
    | Indexed(ty: nat, field: nat, count: nat)

  datatype Doc = Doc(key: Option<Text>, body: Body)

  // ---- the name dictionary: tagsMatcher ----

  // name2tag without adding: one more than the position, 0 when the name is not there
  function TagOf(tags: seq<Text>, name: Text): (t: nat)
    ensures t <= |tags|
    ensures t > 0 ==> tags[t - 1] == name
    ensures t == 0 <==> name !in tags
  {
    if tags == [] then 0
    else if tags[|tags| - 1] == name then |tags|
    else TagOf(tags[..|tags| - 1], name)
  }

  function KeyTag(tags: seq<Text>, key: Option<Text>): nat {
    if key.Some? then TagOf(tags, key.value) else 0
  }

  // Names never move: a longer dictionary gives an old name its old tag.
  lemma {:induction false} TagStays(tags: seq<Text>, more: seq<Text>, name: Text)
    requires name in tags && name !in more
    ensures TagOf(tags + more, name) == TagOf(tags, name)
  {
    if more == [] {
      assert tags + more == tags;
    } else {
      var front := more[..|more| - 1];
      assert (tags + more)[..|tags + more| - 1] == tags + front;
      TagStays(tags, front, name);
    }
  }

  // ---- bytes ----

  // The k low bytes of n, lowest first.
  function LE(n: nat, k: nat): (s: seq<byte>)
    ensures |s| == k
  {
    if k == 0 then [] else [n % 256] + LE(n / 256, k - 1)
  }

  function FromLE(s: seq<byte>): nat {
    if s == [] then 0 else s[0] + 256 * FromLE(s[1..])
  }

  function Pow256(k: nat): nat { if k == 0 then 1 else 256 * Pow256(k - 1) }

  lemma {:induction false} LEInverse(n: nat, k: nat)
    requires n < Pow256(k)
    ensures FromLE(LE(n, k)) == n
  {
    if k > 0 {
      LEInverse(n / 256, k - 1);
      assert LE(n, k)[1..] == LE(n / 256, k - 1);
    }
  }

  function ScalarTag(s: Scalar): nat {
    match s
    case SVar(_) => VARINT
    case SDouble(_) => DOUBLE
    case SStr(_) => STRING
    case SBool(_) => BOOL
    case SFloat(_) => FLOAT
    case SUuid(_, _) => UUID
  }

  function ScalarBytes(s: Scalar): seq<byte> {
    match s
    case SVar(i) => Bytes(ZigZag(i))
    case SDouble(n) => LE(n, 8)
    case SStr(t) => Bytes(|t|) + t
    case SBool(n) => Bytes(n)
    case SFloat(n) => LE(n, 4)
    case SUuid(hi, lo) => LE(hi, 8) + LE(lo, 8)
  }

  function ScalarsBytes(ss: seq<Scalar>): seq<byte> {
    if ss == [] then [] else ScalarBytes(ss[0]) + ScalarsBytes(ss[1..])
  }

  function BodyTag(b: Body): nat {
    match b
    case Null => NULL
    case Sc(s) => ScalarTag(s)
    case Arr(_, _) => ARRAY
    case Objs(_) => ARRAY
    case Obj(_) => OBJECT
    case Indexed(ty, _, _) => ty
  }

  function BodyField(b: Body): nat { if b.Indexed? then b.field + 1 else 0 }

  function EndBytes(): seq<byte> { Bytes(MkCTag(END, 0, 0)) }

  function DocBytes(tags: seq<Text>, d: Doc): (s: seq<byte>)
    ensures s != []
    decreases d, 1
  {
    Bytes(MkCTag(BodyTag(d.body), KeyTag(tags, d.key), BodyField(d.body))) + BodyBytes(tags, d.body)
  }

  function BodyBytes(tags: seq<Text>, b: Body): seq<byte>
    decreases b, 0
  {
    match b
    case Null => []
    case Sc(s) => ScalarBytes(s)
    case Arr(tag, elems) => LE(MkCArrayTag(|elems|, tag), 4) + ScalarsBytes(elems)
    case Objs(docs) => LE(MkCArrayTag(|docs|, OBJECT), 4) + DocsBytes(tags, docs)
    case Obj(fields) => DocsBytes(tags, fields) + EndBytes()
    case Indexed(ty, _, count) => if ty == ARRAY then Bytes(count) else []
  }

  function DocsBytes(tags: seq<Text>, ds: seq<Doc>): seq<byte>
    decreases ds, 2
  {
    if ds == [] then [] else DocBytes(tags, ds[0]) + DocsBytes(tags, ds[1..])
  }

  lemma {:induction false} DocsBytesConcat(tags: seq<Text>, xs: seq<Doc>, ys: seq<Doc>)
    ensures DocsBytes(tags, xs + ys) == DocsBytes(tags, xs) + DocsBytes(tags, ys)
  {
    if xs == [] {
      assert xs + ys == ys;
    } else {
      var a, b, c := DocBytes(tags, xs[0]), DocsBytes(tags, xs[1..]), DocsBytes(tags, ys);
      DocsBytesConcat(tags, xs[1..], ys);
      DocsBytesFirst(tags, xs, ys);
      Assoc(a, b, c);
    }
  }

  lemma DocsBytesFirst(tags: seq<Text>, xs: seq<Doc>, ys: seq<Doc>)
    requires xs != []
    ensures DocsBytes(tags, xs + ys) == DocBytes(tags, xs[0]) + DocsBytes(tags, xs[1..] + ys)
  {
    assert (xs + ys)[1..] == xs[1..] + ys;
  }

  lemma Assoc(a: seq<byte>, b: seq<byte>, c: seq<byte>)
    ensures a + b + c == a + (b + c)
  {
  }

  // ---- what the format can hold ----

  predicate ScalarFits(s: Scalar) {
    match s
    case SVar(i) => -0x8000_0000_0000_0000 <= i < 0x8000_0000_0000_0000
    case SDouble(n) => n < 0x1_0000_0000_0000_0000
    case SStr(_) => true
    case SBool(n) => n < 0x1_0000_0000_0000_0000
    case SFloat(n) => n < 0x1_0000_0000
    case SUuid(hi, lo) => hi < 0x1_0000_0000_0000_0000 && lo < 0x1_0000_0000_0000_0000
  }

  predicate DocFits(tags: seq<Text>, d: Doc)
    decreases d, 1
  {
    && |tags| < 0x1000
    && (d.key.Some? ==> d.key.value in tags)
    && BodyFits(tags, d.body)
  }

  predicate BodyFits(tags: seq<Text>, b: Body)
    decreases b, 0
  {
    match b
    case Null => true
    case Sc(s) => ScalarFits(s)
    case Arr(tag, elems) =>
      && |elems| < 0x100_0000 && tag < 256 && tag != OBJECT
      && forall i :: 0 <= i < |elems| ==> ScalarFits(elems[i]) && ScalarTag(elems[i]) == tag
    case Objs(docs) => |docs| < 0x100_0000 && DocsFit(tags, docs)
    case Obj(fields) => DocsFit(tags, fields)
    case Indexed(ty, field, count) => ty < 10 && ty != END && ty != NULL && field < 256 && count < 0x8000_0000_0000_0000
  }

  predicate DocsFit(tags: seq<Text>, ds: seq<Doc>)
    decreases ds, 2
  {
    ds != [] ==> DocFits(tags, ds[0]) && DocsFit(tags, ds[1..])
  }
}
