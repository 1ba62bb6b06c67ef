// Decoding into a type that lacks some of what is encoded: the projection of the value.

module CjsonProjection {
  import opened Wrappers
  import opened CTags
  import opened CjsonWire
  import opened GoTypes
  import opened CjsonCodec
  import opened CjsonRoundTrip

  // ---- narrower types ----

  // What is left of a type: all of it, nothing, a list, pointer or map of something
  // narrower, or some of the fields of a struct, themselves narrowed.
  datatype Shape = Whole | Gone | Inside(s: Shape) | Parts(keep: seq<Shape>)

  predicate HasInside(ty: Ty) { ty.TSlice? || ty.TArray? || ty.TPtr? || ty.TMap? }

  function InsideOf(ty: Ty): Ty
    requires HasInside(ty)
  {
    if ty.TPtr? then ty.to else ty.elem
  }

  // A field that stops answering to some of its names.
  predicate Hides(f: Field, sh: Shape) { sh.Gone? || (Flattened(f) && !sh.Whole?) }

  // The shape is one of this type, and no field that stays answers to a name of one
  // before it that does not.
  predicate ShapeOk(ty: Ty, sh: Shape)
    decreases sh
  {
    match sh
    case Whole => true
    case Gone => false
    case Inside(s) => HasInside(ty) && ShapeOk(InsideOf(ty), s)
    case Parts(keep) =>
      && ty.TStruct? && |keep| == |ty.fields|
      && (forall i :: 0 <= i < |keep| ==> keep[i].Gone? || ShapeOk(ty.fields[i].ty, keep[i]))
      && (forall i, j :: 0 <= i < j < |keep| && Hides(ty.fields[i], keep[i]) && !keep[j].Gone? ==>
            NamesOf(ty.fields[i]) !! NamesOf(ty.fields[j]))
  }

  function Narrowed(ty: Ty, sh: Shape): Ty
    decreases sh, 1
  {
    match sh
    case Whole => ty
    case Gone => ty
    case Inside(s) =>
      (match ty
       case TSlice(e) => TSlice(Narrowed(e, s))
       case TArray(n, e) => TArray(n, Narrowed(e, s))
       case TPtr(t) => TPtr(Narrowed(t, s))
       case TMap(e) => TMap(Narrowed(e, s))
       case _ => ty)
    case Parts(keep) => if ty.TStruct? && |keep| == |ty.fields| then TStruct(Pick(EachNarrowed(ty, sh, 0), keep)) else ty
  }

  function EachNarrowed(ty: Ty, sh: Shape, i: nat): (r: seq<Field>)
    requires sh.Parts? && ty.TStruct? && |sh.keep| == |ty.fields| && i <= |sh.keep|
    ensures |r| == |sh.keep| - i
    ensures forall k :: 0 <= k < |r| ==> r[k] == NarrowedField(ty, sh, i + k)
    decreases sh, 0, |sh.keep| - i
  {
    if i == |sh.keep| then [] else [NarrowedField(ty, sh, i)] + EachNarrowed(ty, sh, i + 1)
  }

  function NarrowedField(ty: Ty, sh: Shape, i: nat): Field
    requires sh.Parts? && ty.TStruct? && |sh.keep| == |ty.fields| && i < |sh.keep|
    decreases sh, 0, 0
  {
    ty.fields[i].(ty := Narrowed(ty.fields[i].ty, sh.keep[i]))
  }

  // What is left of a value.
  function Projected(ty: Ty, sh: Shape, v: Value): Value
    decreases sh, 1
  {
    match sh
    case Whole => v
    case Gone => v
    case Inside(s) =>
      if !HasInside(ty) then v
      else if ty.TPtr? then (if v.VPtr? then VPtr(Projected(ty.to, s, v.to)) else v)
      else if ty.TMap? then (if v.VMap? then VMap(ProjectedEntries(ty.elem, s, v.entries)) else v)
      else if v.VList? then VList(ProjectedAll(ty.elem, s, v.elems)) else v
    case Parts(keep) =>
      if ty.TStruct? && v.VStruct? && |keep| == |ty.fields| == |v.fields|
      then VStruct(Pick(EachProjected(ty, sh, v.fields, 0), keep)) else v
  }

  function EachProjected(ty: Ty, sh: Shape, vs: seq<Value>, i: nat): (r: seq<Value>)
    requires sh.Parts? && ty.TStruct? && |sh.keep| == |ty.fields| == |vs| && i <= |vs|
    ensures |r| == |vs| - i
    ensures forall k :: 0 <= k < |r| ==> r[k] == Projected(ty.fields[i + k].ty, sh.keep[i + k], vs[i + k])
    decreases sh, 0, |vs| - i
  {
    if i == |vs| then [] else [Projected(ty.fields[i].ty, sh.keep[i], vs[i])] + EachProjected(ty, sh, vs, i + 1)
  }

  function ProjectedAll(e: Ty, s: Shape, vs: seq<Value>): (r: seq<Value>)
    ensures |r| == |vs|
    ensures forall i :: 0 <= i < |r| ==> r[i] == Projected(e, s, vs[i])
    decreases s, 2, |vs|
  {
    if vs == [] then [] else [Projected(e, s, vs[0])] + ProjectedAll(e, s, vs[1..])
  }

  function ProjectedEntries(e: Ty, s: Shape, entries: seq<(Text, Value)>): seq<(Text, Value)>
    decreases s, 2, |entries|
  {
    if entries == [] then [] else [(entries[0].0, Projected(e, s, entries[0].1))] + ProjectedEntries(e, s, entries[1..])
  }

  // ---- picking fields ----

  function Pick<T>(xs: seq<T>, keep: seq<Shape>): seq<T>
    requires |xs| == |keep|
    decreases |xs|
  {
    if xs == [] then []
    else
      var n := |xs| - 1;
      Pick(xs[..n], keep[..n]) + (if keep[n].Gone? then [] else [xs[n]])
  }

  // Where field i goes.
  function Kept(keep: seq<Shape>, i: nat): nat
    requires i <= |keep|
  {
    if i == 0 then 0 else Kept(keep, i - 1) + (if keep[i - 1].Gone? then 0 else 1)
  }

  lemma {:induction false} KeptFront(keep: seq<Shape>, n: nat, i: nat)
    requires i <= n <= |keep|
    ensures Kept(keep[..n], i) == Kept(keep, i)
  {
    if i > 0 {
      KeptFront(keep, n, i - 1);
    }
  }

  lemma {:induction false} KeptGrows(keep: seq<Shape>, i: nat, j: nat)
    requires i <= j <= |keep|
    ensures Kept(keep, i) <= Kept(keep, j)
    decreases j
  {
    if i < j {
      KeptGrows(keep, i, j - 1);
    }
  }

  lemma {:induction false} PickLength<T>(xs: seq<T>, keep: seq<Shape>)
    requires |xs| == |keep|
    ensures |Pick(xs, keep)| == Kept(keep, |keep|)
    decreases |xs|
  {
    if xs != [] {
      var n := |xs| - 1;
      PickLength(xs[..n], keep[..n]);
      KeptFront(keep, n, n);
    }
  }

  // Picking looks at one field after another, and a change of field i is a change at its
  // new place.
  lemma {:induction false} PickAt<T>(xs: seq<T>, keep: seq<Shape>, i: nat, x: T)
    requires |xs| == |keep| && i < |xs|
    ensures |Pick(xs, keep)| == Kept(keep, |keep|) && Kept(keep, i) <= Kept(keep, |keep|)
    ensures !keep[i].Gone? ==>
      && Kept(keep, i) < Kept(keep, |keep|) && Pick(xs, keep)[Kept(keep, i)] == xs[i]
      && Pick(xs[i := x], keep) == Pick(xs, keep)[Kept(keep, i) := x]
    ensures keep[i].Gone? ==> Pick(xs[i := x], keep) == Pick(xs, keep)
    decreases |xs|
  {
    var n := |xs| - 1;
    PickLength(xs, keep);
    PickLength(xs[..n], keep[..n]);
    KeptFront(keep, n, n);
    KeptFront(keep, n, i);
    KeptGrows(keep, i, n);
    if i < n {
      PickAt(xs[..n], keep[..n], i, x);
      assert xs[i := x][..n] == xs[..n][i := x];
      if !keep[i].Gone? {
        KeptGrows(keep, i + 1, n);
      }
    } else {
      assert xs[i := x][..n] == xs[..n];
    }
  }

  // Every picked field comes from somewhere, the same place for all lists.
  lemma {:induction false} PickFrom<S, T>(xs: seq<S>, ys: seq<T>, keep: seq<Shape>, k: nat) returns (i: nat)
    requires |xs| == |keep| == |ys| && k < |Pick(xs, keep)|
    ensures |Pick(ys, keep)| == |Pick(xs, keep)|
    ensures i < |keep| && !keep[i].Gone? && Pick(xs, keep)[k] == xs[i] && Pick(ys, keep)[k] == ys[i]
    decreases |xs|
  {
    var n := |xs| - 1;
    PickLength(xs, keep);
    PickLength(ys, keep);
    PickLength(xs[..n], keep[..n]);
    PickLength(ys[..n], keep[..n]);
    if k < |Pick(xs[..n], keep[..n])| {
      i := PickFrom(xs[..n], ys[..n], keep[..n], k);
    } else {
      i := n;
    }
  }

  // ---- names in the narrower type ----

  // Where a path leads in the narrower type, None if its field is gone.
  function Moved(sh: Shape, p: seq<nat>): Option<seq<nat>>
    requires p != []
    decreases p
  {
    if !sh.Parts? then Some(p)
    else if p[0] >= |sh.keep| || sh.keep[p[0]].Gone? then None
    else if |p| == 1 then Some([Kept(sh.keep, p[0])])
    else
      match Moved(sh.keep[p[0]], p[1..])
      case None => None
      case Some(q) => Some([Kept(sh.keep, p[0])] + q)
  }

  function MovedTo(sh: Shape, p: Option<seq<nat>>): Option<seq<nat>>
    requires p.Some? ==> p.value != []
  {
    if p.None? then None else Moved(sh, p.value)
  }

  lemma {:induction false} LocatedIn(ty: Ty, i: nat, name: Text)
    requires ty.TStruct? && i <= |ty.fields| && Locate(ty, i, name).Some?
    ensures var p := Locate(ty, i, name).value; i <= p[0] < |ty.fields| && name in NamesOf(ty.fields[p[0]])
    decreases |ty.fields| - i
  {
    var f := ty.fields[i];
    if !(Flattened(f) && Locate(f.ty, 0, name).Some?) && !(!Flattened(f) && f.name == name) {
      LocatedIn(ty, i + 1, name);
    }
  }

  // A name that a narrowed field i had leads to nothing that is left behind it.
  lemma HiddenBehind(ty: Ty, sh: Shape, i: nat, name: Text)
    requires sh.Parts? && ShapeOk(ty, sh) && i < |sh.keep| && Hides(ty.fields[i], sh.keep[i]) && name in NamesOf(ty.fields[i])
    ensures MovedTo(sh, Locate(ty, i + 1, name)).None?
  {
    if Locate(ty, i + 1, name).Some? {
      LocatedIn(ty, i + 1, name);
      var j := Locate(ty, i + 1, name).value[0];
      assert sh.keep[j].Gone?;
    }
  }

  lemma NarrowedAt(ty: Ty, sh: Shape, i: nat)
    requires sh.Parts? && ShapeOk(ty, sh) && i < |sh.keep|
    ensures var n := Narrowed(ty, sh);
      && n.TStruct? && |n.fields| == Kept(sh.keep, |sh.keep|) && Kept(sh.keep, i) <= |n.fields|
      && (!sh.keep[i].Gone? ==> Kept(sh.keep, i) < |n.fields| && n.fields[Kept(sh.keep, i)] == NarrowedField(ty, sh, i))
  {
    var all := EachNarrowed(ty, sh, 0);
    PickAt(all, sh.keep, i, all[i]);
  }

  lemma StaysFlat(ty: Ty, sh: Shape, i: nat)
    requires sh.Parts? && ShapeOk(ty, sh) && i < |sh.keep| && !sh.keep[i].Gone?
    ensures Flattened(NarrowedField(ty, sh, i)) == Flattened(ty.fields[i])
  {
    var f, s := ty.fields[i], sh.keep[i];
    assert ShapeOk(f.ty, s);
  }

  // Looking a name up from field i on comes to the same field.
  ghost predicate Locates(ty: Ty, sh: Shape, i: nat, name: Text)
    requires sh.Parts? && ty.TStruct? && i <= |sh.keep| == |ty.fields|
  {
    var n := Narrowed(ty, sh);
    && n.TStruct? && Kept(sh.keep, i) <= |n.fields|
    && Locate(n, Kept(sh.keep, i), name) == MovedTo(sh, Locate(ty, i, name))
  }

  lemma {:induction false} LocateNarrowed(ty: Ty, sh: Shape, i: nat, name: Text)
    requires sh.Parts? && ShapeOk(ty, sh) && i <= |sh.keep|
    ensures Locates(ty, sh, i, name)
    decreases sh, |sh.keep| - i
  {
    if i == |sh.keep| {
      PickLength(EachNarrowed(ty, sh, 0), sh.keep);
    } else {
      LocateNarrowed(ty, sh, i + 1, name);
      if sh.keep[i].Gone? {
        LocateGone(ty, sh, i, name);
      } else if Flattened(ty.fields[i]) {
        LocateFlat(ty, sh, i, name);
      } else {
        LocatePlain(ty, sh, i, name);
      }
    }
  }

  // The step over field i: one that is gone,
  lemma LocateGone(ty: Ty, sh: Shape, i: nat, name: Text)
    requires sh.Parts? && ShapeOk(ty, sh) && i < |sh.keep| && sh.keep[i].Gone? && Locates(ty, sh, i + 1, name)
    ensures Locates(ty, sh, i, name)
  {
    assert Kept(sh.keep, i + 1) == Kept(sh.keep, i);
    if name in NamesOf(ty.fields[i]) {
      HiddenBehind(ty, sh, i, name);
    }
  }

  // one that stays and answers to its own name,
  lemma LocatePlain(ty: Ty, sh: Shape, i: nat, name: Text)
    requires sh.Parts? && ShapeOk(ty, sh) && i < |sh.keep| && !sh.keep[i].Gone? && !Flattened(ty.fields[i])
    requires Locates(ty, sh, i + 1, name)
    ensures Locates(ty, sh, i, name)
  {
    assert Kept(sh.keep, i + 1) == Kept(sh.keep, i) + 1;
    NarrowedAt(ty, sh, i);
    StaysFlat(ty, sh, i);
  }

  // and one that stays and answers to the names inside.
  lemma {:induction false} LocateFlat(ty: Ty, sh: Shape, i: nat, name: Text)
    requires sh.Parts? && ShapeOk(ty, sh) && i < |sh.keep| && !sh.keep[i].Gone? && Flattened(ty.fields[i])
    requires Locates(ty, sh, i + 1, name)
    ensures Locates(ty, sh, i, name)
    decreases sh, 0
  {
    var f, s := ty.fields[i], sh.keep[i];
    assert Kept(sh.keep, i + 1) == Kept(sh.keep, i) + 1;
    NarrowedAt(ty, sh, i);
    StaysFlat(ty, sh, i);
    LocateInside(f.ty, s, name);
    if Locate(f.ty, 0, name).Some? {
      var p := Locate(f.ty, 0, name).value;
      assert ([i] + p)[1..] == p;
      if Moved(s, p).None? {
        HiddenBehind(ty, sh, i, name);
      }
    }
  }

  lemma {:induction false} LocateInside(ty: Ty, sh: Shape, name: Text)
    requires ty.TStruct? && ShapeOk(ty, sh)
    ensures Narrowed(ty, sh).TStruct? && Locate(Narrowed(ty, sh), 0, name) == MovedTo(sh, Locate(ty, 0, name))
    decreases sh, |ty.fields| + 1
  {
    if sh.Parts? {
      LocateNarrowed(ty, sh, 0, name);
    }
  }

  // ---- values of the wider type ----

  // Structs have all their fields, at all depths.
  predicate Shaped(ty: Ty, v: Value)
    decreases ty
  {
    match ty
    case TPtr(t) => v.VPtr? ==> Shaped(t, v.to)
    case TSlice(e) => v.VList? ==> forall i :: 0 <= i < |v.elems| ==> Shaped(e, v.elems[i])
    case TArray(_, e) => v.VList? ==> forall i :: 0 <= i < |v.elems| ==> Shaped(e, v.elems[i])
    case TMap(e) => v.VMap? ==> forall i :: 0 <= i < |v.entries| ==> Shaped(e, v.entries[i].1)
    case TStruct(fs) => v.VStruct? && |v.fields| == |fs| && forall i :: 0 <= i < |fs| ==> Shaped(fs[i].ty, v.fields[i])
    case _ => true
  }

  lemma {:induction false} ZeroShaped(ty: Ty)
    ensures Shaped(ty, Zero(ty))
    decreases ty
  {
    match ty
    case TArray(n, e) => ZeroShaped(e);
    case TStruct(fs) =>
      forall i | 0 <= i < |fs| ensures Shaped(fs[i].ty, ZeroFields(ty, 0)[i]) {
        ZeroShaped(fs[i].ty);
      }
    case _ =>
  }

  lemma {:induction false} ZeroProjected(ty: Ty, sh: Shape)
    requires ShapeOk(ty, sh)
    ensures Projected(ty, sh, Zero(ty)) == Zero(Narrowed(ty, sh))
    decreases sh
  {
    if sh.Inside? && ty.TArray? {
      ZeroProjected(ty.elem, sh.s);
      assert ProjectedAll(ty.elem, sh.s, Zero(ty).elems) == Zero(Narrowed(ty, sh)).elems;
    } else if sh.Parts? {
      var fs, zs := EachNarrowed(ty, sh, 0), EachProjected(ty, sh, ZeroFields(ty, 0), 0);
      forall k | 0 <= k < |Pick(fs, sh.keep)|
        ensures |Pick(zs, sh.keep)| == |Pick(fs, sh.keep)| && Pick(zs, sh.keep)[k] == Zero(Pick(fs, sh.keep)[k].ty)
      {
        var i := PickFrom(fs, zs, sh.keep, k);
        ZeroProjected(ty.fields[i].ty, sh.keep[i]);
      }
      PickLength(fs, sh.keep);
      PickLength(zs, sh.keep);
      assert Pick(zs, sh.keep) == ZeroFields(Narrowed(ty, sh), 0);
    }
  }

  // ---- fields by path ----

  function ShapeAt(sh: Shape, p: seq<nat>): Shape
    requires p != []
    decreases p
  {
    if !sh.Parts? || p[0] >= |sh.keep| then Whole
    else if |p| == 1 then sh.keep[p[0]] else ShapeAt(sh.keep[p[0]], p[1..])
  }

  lemma {:induction false} PathShaped(ty: Ty, v: Value, p: seq<nat>, x: Value)
    requires Shaped(ty, v) && IsPath(ty, p)
    ensures At(v, p).Some? && Shaped(TypeAt(ty, p), At(v, p).value)
    ensures Shaped(TypeAt(ty, p), x) ==> Shaped(ty, SetAt(v, p, x))
    decreases p
  {
    if |p| > 1 {
      PathShaped(ty.fields[p[0]].ty, v.fields[p[0]], p[1..], x);
    }
  }

  // What a path finds, and what a change there does, before and after narrowing.
  lemma {:induction false} PathNarrowed(ty: Ty, sh: Shape, v: Value, p: seq<nat>, x: Value)
    requires ShapeOk(ty, sh) && Shaped(ty, v) && IsPath(ty, p)
    ensures At(v, p).Some? && Follows(ty, sh, v, p, x)
    decreases p
  {
    PathShaped(ty, v, p, x);
    if !sh.Parts? {
      PathWhole(ty, sh, v, p, x);
    } else if |p| == 1 {
      PathEnd(ty, sh, v, p, x);
    } else {
      if !sh.keep[p[0]].Gone? {
        PathNarrowed(ty.fields[p[0]].ty, sh.keep[p[0]], v.fields[p[0]], p[1..], x);
      }
      StepNarrowed(ty, sh, v, p, x);
    }
  }

  lemma PathWhole(ty: Ty, sh: Shape, v: Value, p: seq<nat>, x: Value)
    requires ShapeOk(ty, sh) && !sh.Parts? && IsPath(ty, p) && At(v, p).Some?
    ensures Follows(ty, sh, v, p, x)
  {
  }

  lemma PathEnd(ty: Ty, sh: Shape, v: Value, p: seq<nat>, x: Value)
    requires ShapeOk(ty, sh) && sh.Parts? && Shaped(ty, v) && IsPath(ty, p) && |p| == 1 && At(v, p).Some?
    ensures Follows(ty, sh, v, p, x)
  {
    FieldNarrowed(ty, sh, v.fields, p[0], x);
  }

  ghost predicate Follows(ty: Ty, sh: Shape, v: Value, p: seq<nat>, x: Value)
    requires IsPath(ty, p) && At(v, p).Some?
  {
    var m := Moved(sh, p);
    if m.None? then Projected(ty, sh, SetAt(v, p, x)) == Projected(ty, sh, v)
    else
      var n, q, t, s := Narrowed(ty, sh), m.value, TypeAt(ty, p), ShapeAt(sh, p);
      && ShapeOk(t, s) && q != [] && IsPath(n, q) && TypeAt(n, q) == Narrowed(t, s)
      && At(Projected(ty, sh, v), q) == Some(Projected(t, s, At(v, p).value))
      && SetAt(Projected(ty, sh, v), q, Projected(t, s, x)) == Projected(ty, sh, SetAt(v, p, x))
  }

  lemma StepNarrowed(ty: Ty, sh: Shape, v: Value, p: seq<nat>, x: Value)
    requires sh.Parts? && ShapeOk(ty, sh) && Shaped(ty, v) && IsPath(ty, p) && |p| > 1 && At(v, p).Some?
    requires !sh.keep[p[0]].Gone? ==> Follows(ty.fields[p[0]].ty, sh.keep[p[0]], v.fields[p[0]], p[1..], x)
    ensures Follows(ty, sh, v, p, x)
  {
    var i := p[0];
    var s, inner := sh.keep[i], SetAt(v.fields[i], p[1..], x);
    FieldNarrowed(ty, sh, v.fields, i, inner);
    assert SetAt(v, p, x) == VStruct(v.fields[i := inner]) && v == VStruct(v.fields);
    if !s.Gone? && Moved(s, p[1..]).Some? {
      StepInside(ty, sh, v, p, x);
    }
  }

  lemma StepInside(ty: Ty, sh: Shape, v: Value, p: seq<nat>, x: Value)
    requires sh.Parts? && ShapeOk(ty, sh) && Shaped(ty, v) && IsPath(ty, p) && |p| > 1 && At(v, p).Some?
    requires !sh.keep[p[0]].Gone? && Moved(sh.keep[p[0]], p[1..]).Some?
    requires Follows(ty.fields[p[0]].ty, sh.keep[p[0]], v.fields[p[0]], p[1..], x)
    ensures Follows(ty, sh, v, p, x)
  {
    var i := p[0];
    var k, q := Kept(sh.keep, i), Moved(sh.keep[i], p[1..]).value;
    var n, u, y := Narrowed(ty, sh), Projected(ty, sh, v), Projected(TypeAt(ty, p), ShapeAt(sh, p), x);
    var inner := SetAt(v.fields[i], p[1..], x);
    FieldNarrowed(ty, sh, v.fields, i, inner);
    assert v == VStruct(v.fields);
    Deeper(n, u, k, q, y);
    assert SetAt(v, p, x) == VStruct(v.fields[i := inner]);
  }

  lemma Deeper(n: Ty, u: Value, k: nat, q: seq<nat>, y: Value)
    requires n.TStruct? && u.VStruct? && k < |n.fields| == |u.fields| && q != []
    ensures IsPath(n, [k] + q) <==> IsPath(n.fields[k].ty, q)
    ensures IsPath(n.fields[k].ty, q) ==> TypeAt(n, [k] + q) == TypeAt(n.fields[k].ty, q)
    ensures At(u, [k] + q) == At(u.fields[k], q)
    ensures SetAt(u, [k] + q, y) == VStruct(u.fields[k := SetAt(u.fields[k], q, y)])
  {
    assert ([k] + q)[1..] == q;
  }

  lemma FieldNarrowed(ty: Ty, sh: Shape, vs: seq<Value>, i: nat, x: Value)
    requires sh.Parts? && ShapeOk(ty, sh) && |vs| == |sh.keep| && i < |vs|
    ensures var k, s, t := Kept(sh.keep, i), sh.keep[i], ty.fields[i].ty;
      var n, u, u' := Narrowed(ty, sh), Projected(ty, sh, VStruct(vs)), Projected(ty, sh, VStruct(vs[i := x]));
      && u.VStruct? && u'.VStruct? && n.TStruct? && |u.fields| == |n.fields|
      && (s.Gone? ==> u' == u)
      && (s.Gone? || (k < |n.fields| && n.fields[k] == NarrowedField(ty, sh, i) && u.fields[k] == Projected(t, s, vs[i])
          && u'.fields == u.fields[k := Projected(t, s, x)]))
      && (s.Gone? || Projected(t, s, x) != Projected(t, s, vs[i]) || u' == u)
  {
    var us, us' := EachProjected(ty, sh, vs, 0), EachProjected(ty, sh, vs[i := x], 0);
    assert us' == us[i := Projected(ty.fields[i].ty, sh.keep[i], x)];
    PickAt(us, sh.keep, i, us'[i]);
    NarrowedAt(ty, sh, i);
  }

  // ---- maps ----

  lemma {:induction false} SetEntryProjected(e: Ty, s: Shape, entries: seq<(Text, Value)>, key: Text, x: Value)
    ensures ProjectedEntries(e, s, SetEntry(entries, key, x)) == SetEntry(ProjectedEntries(e, s, entries), key, Projected(e, s, x))
  {
    if entries == [] {
      assert SetEntry(entries, key, x)[1..] == [];
    } else if entries[0].0 == key {
      assert SetEntry(entries, key, x)[1..] == entries[1..];
      assert ProjectedEntries(e, s, entries)[1..] == ProjectedEntries(e, s, entries[1..]);
    } else {
      SetEntryProjected(e, s, entries[1..], key, x);
      assert SetEntry(entries, key, x)[1..] == SetEntry(entries[1..], key, x);
      assert ProjectedEntries(e, s, entries)[1..] == ProjectedEntries(e, s, entries[1..]);
    }
  }

  lemma {:induction false} SetEntryShaped(e: Ty, entries: seq<(Text, Value)>, key: Text, x: Value)
    requires Shaped(e, x) && forall i :: 0 <= i < |entries| ==> Shaped(e, entries[i].1)
    ensures forall i :: 0 <= i < |SetEntry(entries, key, x)| ==> Shaped(e, SetEntry(entries, key, x)[i].1)
  {
    if entries != [] {
      SetEntryShaped(e, entries[1..], key, x);
    }
  }

  // ---- scalars ----

  // r is what decoding into a type gave, r' what it gave for the narrower one.
  ghost predicate Projects(ty: Ty, sh: Shape, r: Result<Value, Fault>, r': Result<Value, Fault>) {
    r.Success? ==> Shaped(ty, r.value) && r' == Success(Projected(ty, sh, r.value))
  }

  function Under(sh: Shape): Shape { if sh.Inside? then sh.s else Whole }

  // Scalars do not get narrower, so neither do lists of them.
  lemma {:induction false} ScalarsNarrowed(e: Ty, s: Shape, ss: seq<Scalar>)
    requires ShapeOk(e, s) && PutScalars(e, ss).Success?
    ensures var xs := PutScalars(e, ss).value;
      && PutScalars(Narrowed(e, s), ss) == Success(xs) && ProjectedAll(e, s, xs) == xs
      && AllShaped(e, xs)
    decreases |ss|
  {
    if ss != [] {
      ScalarsNarrowed(e, s, ss[1..]);
      var xs := PutScalars(e, ss).value;
      assert xs[1..] == PutScalars(e, ss[1..]).value;
      assert e.TPtr? || IsScalar(e);
      assert s.Inside? ==> e.TPtr? && s.s.Whole?;
    }
  }

  lemma OneNarrowed(ty: Ty, sh: Shape, cur: Value, s: Scalar)
    requires ShapeOk(ty, sh) && Shaped(ty, cur) && PutOne(ty, cur, s).Success?
    ensures Shaped(ty, PutOne(ty, cur, s).value)
    ensures PutOne(Narrowed(ty, sh), Projected(ty, sh, cur), s) == Success(Projected(ty, sh, PutOne(ty, cur, s).value))
  {
    if ty.TSlice? && sh.Inside? {
      assert IsScalar(ty.elem) && sh.s.Whole?;
      var x := PutScalar(ty.elem, s).value;
      assert ProjectedAll(ty.elem, sh.s, Elems(cur) + [x]) == ProjectedAll(ty.elem, sh.s, Elems(cur)) + [x];
    }
  }

  // A list, narrowed: its type, and any value of it.
  lemma ListNarrowed(ty: Ty, sh: Shape)
    requires ShapeOk(ty, sh) && (ty.TSlice? || ty.TArray?)
    ensures ShapeOk(ty.elem, Under(sh))
    ensures Narrowed(ty, sh) == if ty.TSlice? then TSlice(Narrowed(ty.elem, Under(sh))) else TArray(ty.len, Narrowed(ty.elem, Under(sh)))
  {
  }

  lemma ListProjected(ty: Ty, sh: Shape, xs: seq<Value>)
    requires ShapeOk(ty, sh) && (ty.TSlice? || ty.TArray?)
    ensures Projected(ty, sh, VList(xs)) == VList(ProjectedAll(ty.elem, Under(sh), xs))
  {
    if sh.Whole? {
      assert ProjectedAll(ty.elem, Whole, xs) == xs;
    }
  }

  lemma ElemsProjected(ty: Ty, sh: Shape, cur: Value)
    requires ShapeOk(ty, sh) && (ty.TSlice? || ty.TArray?)
    ensures Elems(Projected(ty, sh, cur)) == ProjectedAll(ty.elem, Under(sh), Elems(cur))
  {
    if cur.VList? {
      ListProjected(ty, sh, cur.elems);
    }
  }

  lemma AppendProjected(e: Ty, s: Shape, xs: seq<Value>, ys: seq<Value>)
    ensures ProjectedAll(e, s, xs + ys) == ProjectedAll(e, s, xs) + ProjectedAll(e, s, ys)
  {
  }

  lemma DropProjected(e: Ty, s: Shape, xs: seq<Value>, n: nat)
    requires n <= |xs|
    ensures ProjectedAll(e, s, xs[n..]) == ProjectedAll(e, s, xs)[n..]
  {
  }

  // xs put behind a slice or over the start of an array, if they fit.
  function Placed(slice: bool, old1: seq<Value>, xs: seq<Value>): Option<Value> {
    if slice then Some(VList(old1 + xs)) else if |xs| <= |old1| then Some(VList(xs + old1[|xs|..])) else None
  }

  lemma PlacedNarrowed(ty: Ty, sh: Shape, cur: Value, xs: seq<Value>)
    requires ShapeOk(ty, sh) && Shaped(ty, cur) && (ty.TSlice? || ty.TArray?)
    requires AllShaped(ty.elem, xs) && Placed(ty.TSlice?, Elems(cur), xs).Some?
    ensures var w := Placed(ty.TSlice?, Elems(cur), xs).value;
      && Shaped(ty, w)
      && Placed(ty.TSlice?, Elems(Projected(ty, sh, cur)), ProjectedAll(ty.elem, Under(sh), xs)) == Some(Projected(ty, sh, w))
  {
    var e, s, old1 := ty.elem, Under(sh), Elems(cur);
    assert AllShaped(e, old1);
    ElemsProjected(ty, sh, cur);
    var all := if ty.TSlice? then old1 + xs else xs + old1[|xs|..];
    if ty.TSlice? {
      AppendProjected(e, s, old1, xs);
    } else {
      DropProjected(e, s, old1, |xs|);
      AppendProjected(e, s, xs, old1[|xs|..]);
    }
    assert AllShaped(e, all);
    ListProjected(ty, sh, all);
  }

  ghost predicate AllShaped(e: Ty, xs: seq<Value>) { forall i :: 0 <= i < |xs| ==> Shaped(e, xs[i]) }

  lemma ManyNarrowed(ty: Ty, sh: Shape, cur: Value, ss: seq<Scalar>)
    requires ShapeOk(ty, sh) && Shaped(ty, cur) && PutMany(ty, cur, ss).Success?
    ensures Projects(ty, sh, PutMany(ty, cur, ss), PutMany(Narrowed(ty, sh), Projected(ty, sh, cur), ss))
  {
    var xs := PutScalars(ty.elem, ss).value;
    ListNarrowed(ty, sh);
    ScalarsNarrowed(ty.elem, Under(sh), ss);
    PlacedNarrowed(ty, sh, cur, xs);
    assert Success(Placed(ty.TSlice?, Elems(cur), xs).value) == PutMany(ty, cur, ss);
  }

  // ---- documents ----

  // What decodes into a type decodes into any narrower one, to the projection of the
  // value: nested data, embedded structs, lists, maps and payload positions included.
  lemma {:induction false} Projection(pl: Payload, ty: Ty, sh: Shape, cur: Value, d: Doc, cnt: Counters)
    requires ShapeOk(ty, sh) && Shaped(ty, cur)
    ensures Projects(ty, sh, Dec(pl, ty, cur, d, cnt), Dec(pl, Narrowed(ty, sh), Projected(ty, sh, cur), d, cnt))
    decreases d, 5
  {
    if !d.body.Null? {
      match d.key
      case None => PutNarrowed(pl, ty, sh, cur, d.body, cnt);
      case Some(name) => KeyedNarrowed(pl, ty, sh, cur, name, d.body, cnt);
    }
  }

  lemma {:induction false} KeyedNarrowed(pl: Payload, ty: Ty, sh: Shape, cur: Value, name: Text, b: Body, cnt: Counters)
    requires ShapeOk(ty, sh) && Shaped(ty, cur)
    ensures Projects(ty, sh, DecKeyed(pl, ty, cur, name, b, cnt), DecKeyed(pl, Narrowed(ty, sh), Projected(ty, sh, cur), name, b, cnt))
    decreases b, 5
  {
    if ty.TPtr? {
      var old1 := Target(ty.to, cur);
      TargetNarrowed(ty.to, sh, cur);
      NamedNarrowed(pl, ty.to, Under(sh), old1, name, b, cnt);
      AsPtrProjects(ty.to, sh, DecNamed(pl, ty.to, old1, name, b, cnt),
                    DecNamed(pl, Narrowed(ty.to, Under(sh)), Projected(ty.to, Under(sh), old1), name, b, cnt));
    } else {
      NamedNarrowed(pl, ty, sh, cur, name, b, cnt);
    }
  }

  // What a pointer points to once it is allocated, and a result put behind it.
  function Target(t: Ty, cur: Value): Value { if cur.VPtr? then cur.to else Zero(t) }

  function AsPtr(r: Result<Value, Fault>): Result<Value, Fault> { if r.Success? then Success(VPtr(r.value)) else r }

  lemma TargetNarrowed(t: Ty, sh: Shape, cur: Value)
    requires ShapeOk(TPtr(t), sh) && Shaped(TPtr(t), cur)
    ensures ShapeOk(t, Under(sh)) && Shaped(t, Target(t, cur)) && Narrowed(TPtr(t), sh) == TPtr(Narrowed(t, Under(sh)))
    ensures Target(Narrowed(t, Under(sh)), Projected(TPtr(t), sh, cur)) == Projected(t, Under(sh), Target(t, cur))
  {
    ZeroShaped(t);
    ZeroProjected(t, Under(sh));
  }

  lemma AsPtrProjects(t: Ty, sh: Shape, r: Result<Value, Fault>, r': Result<Value, Fault>)
    requires ShapeOk(TPtr(t), sh) && Projects(t, Under(sh), r, r')
    ensures Projects(TPtr(t), sh, AsPtr(r), AsPtr(r'))
  {
  }

  lemma {:induction false} NamedNarrowed(pl: Payload, ty: Ty, sh: Shape, cur: Value, name: Text, b: Body, cnt: Counters)
    requires ShapeOk(ty, sh) && Shaped(ty, cur)
    ensures Projects(ty, sh, DecNamed(pl, ty, cur, name, b, cnt), DecNamed(pl, Narrowed(ty, sh), Projected(ty, sh, cur), name, b, cnt))
    decreases b, 4
  {
    if ty.TMap? {
      EntryNarrowed(pl, ty, sh, cur, name, b, cnt);
    } else if ty.TStruct? && Locate(ty, 0, name).Some? {
      FieldPutNarrowed(pl, ty, sh, cur, name, b, cnt);
    } else if ty.TStruct? && sh.Parts? {
      LocateNarrowed(ty, sh, 0, name);
    }
  }

  lemma {:induction false} EntryNarrowed(pl: Payload, ty: Ty, sh: Shape, cur: Value, name: Text, b: Body, cnt: Counters)
    requires ShapeOk(ty, sh) && Shaped(ty, cur) && ty.TMap?
    ensures Projects(ty, sh, DecNamed(pl, ty, cur, name, b, cnt), DecNamed(pl, Narrowed(ty, sh), Projected(ty, sh, cur), name, b, cnt))
    decreases b, 3, 1
  {
    var e, s := ty.elem, Under(sh);
    assert ShapeOk(e, s) && Narrowed(ty, sh) == TMap(Narrowed(e, s));
    ZeroShaped(e);
    ZeroProjected(e, s);
    PutNarrowed(pl, e, s, Zero(e), b, cnt);
    SetNarrowed(ty, sh, cur, name, b, Put(pl, e, Zero(e), b, cnt), Put(pl, Narrowed(e, s), Zero(Narrowed(e, s)), b, cnt));
  }

  function AsEntry(e: Ty, cur: Value, name: Text, b: Body, r: Result<Value, Fault>): Result<Value, Fault> {
    if r.Success? then Success(SetKey(cur, name, ForMap(e, b, r.value))) else r
  }

  lemma SetNarrowed(ty: Ty, sh: Shape, cur: Value, name: Text, b: Body, r: Result<Value, Fault>, r': Result<Value, Fault>)
    requires ShapeOk(ty, sh) && Shaped(ty, cur) && ty.TMap? && Projects(ty.elem, Under(sh), r, r')
    ensures Projects(ty, sh, AsEntry(ty.elem, cur, name, b, r),
                     AsEntry(Narrowed(ty.elem, Under(sh)), Projected(ty, sh, cur), name, b, r'))
  {
    if r.Success? {
      var e, s, entries := ty.elem, Under(sh), if cur.VMap? then cur.entries else [];
      var x := ForMap(e, b, r.value);
      ForMapNarrowed(e, s, b, r.value);
      SetEntryShaped(e, entries, name, x);
      if sh.Inside? {
        SetEntryProjected(e, s, entries, name, x);
      }
    }
  }

  lemma ForMapNarrowed(e: Ty, s: Shape, b: Body, v: Value)
    requires ShapeOk(e, s) && Shaped(e, v)
    ensures Shaped(e, ForMap(e, b, v))
    ensures ForMap(Narrowed(e, s), b, Projected(e, s, v)) == Projected(e, s, ForMap(e, b, v))
  {
    if e.TPtr? {
      ZeroShaped(e.to);
      ZeroProjected(e.to, Under(s));
    }
  }

  lemma {:induction false} FieldPutNarrowed(pl: Payload, ty: Ty, sh: Shape, cur: Value, name: Text, b: Body, cnt: Counters)
    requires ShapeOk(ty, sh) && Shaped(ty, cur) && ty.TStruct? && Locate(ty, 0, name).Some?
    ensures Projects(ty, sh, DecNamed(pl, ty, cur, name, b, cnt), DecNamed(pl, Narrowed(ty, sh), Projected(ty, sh, cur), name, b, cnt))
    decreases b, 3, 1
  {
    var p := Locate(ty, 0, name).value;
    var t, gone := TypeAt(ty, p), Moved(sh, p).None?;
    var s := if gone then Whole else ShapeAt(sh, p);
    PathNarrowed(ty, sh, cur, p, cur);
    PathShaped(ty, cur, p, cur);
    var old1 := At(cur, p).value;
    PutNarrowed(pl, t, s, old1, b, cnt);
    var r := Put(pl, t, old1, b, cnt);
    if r.Success? {
      PathNarrowed(ty, sh, cur, p, r.value);
      PathShaped(ty, cur, p, r.value);
    }
    if sh.Parts? {
      LocateNarrowed(ty, sh, 0, name);
    }
  }

  lemma {:induction false} PutNarrowed(pl: Payload, ty: Ty, sh: Shape, cur: Value, b: Body, cnt: Counters)
    requires ShapeOk(ty, sh) && Shaped(ty, cur)
    ensures Projects(ty, sh, Put(pl, ty, cur, b, cnt), Put(pl, Narrowed(ty, sh), Projected(ty, sh, cur), b, cnt))
    decreases b, 3, 0
  {
    if ty.TPtr? {
      PtrNarrowed(pl, ty, sh, cur, b, cnt);
    } else if EmptyArray(b) && !ty.TSlice? && !ty.TArray? {
      ZeroShaped(ty);
      ZeroProjected(ty, sh);
    } else {
      InnerNarrowed(pl, ty, sh, cur, b, cnt);
    }
  }

  lemma {:induction false} PtrNarrowed(pl: Payload, ty: Ty, sh: Shape, cur: Value, b: Body, cnt: Counters)
    requires ShapeOk(ty, sh) && Shaped(ty, cur) && ty.TPtr?
    ensures Projects(ty, sh, Put(pl, ty, cur, b, cnt), Put(pl, Narrowed(ty, sh), Projected(ty, sh, cur), b, cnt))
    decreases b, 2, 1
  {
    var t, s := ty.to, Under(sh);
    TargetNarrowed(t, sh, cur);
    PutThrough(pl, t, cur, b, cnt);
    PutThrough(pl, Narrowed(t, s), Projected(ty, sh, cur), b, cnt);
    if !(EmptyArray(b) && !t.TSlice? && !t.TArray?) {
      var old1 := Target(t, cur);
      InnerNarrowed(pl, t, s, old1, b, cnt);
      AsPtrProjects(t, sh, PutIn(pl, t, old1, b, cnt), PutIn(pl, Narrowed(t, s), Projected(t, s, old1), b, cnt));
    }
  }

  lemma PutThrough(pl: Payload, t: Ty, cur: Value, b: Body, cnt: Counters)
    ensures Put(pl, TPtr(t), cur, b, cnt) ==
      if EmptyArray(b) && !t.TSlice? && !t.TArray? then Success(VNil) else AsPtr(PutIn(pl, t, Target(t, cur), b, cnt))
  {
  }

  lemma {:induction false} InnerNarrowed(pl: Payload, ty: Ty, sh: Shape, cur: Value, b: Body, cnt: Counters)
    requires ShapeOk(ty, sh) && Shaped(ty, cur)
    ensures Projects(ty, sh, PutIn(pl, ty, cur, b, cnt), PutIn(pl, Narrowed(ty, sh), Projected(ty, sh, cur), b, cnt))
    decreases b, 2, 0
  {
    if PutIn(pl, ty, cur, b, cnt).Success? {
      match b
      case Null =>
      case Sc(s) => OneNarrowed(ty, sh, cur, s);
      case Arr(_, elems) => ManyNarrowed(ty, sh, cur, elems);
      case Objs(_) => ObjsNarrowed(pl, ty, sh, cur, b, cnt);
      case Obj(fields) => AllNarrowed(pl, ty, sh, cur, fields, cnt);
      case Indexed(_, _, _) => IndexedNarrowed(pl, ty, sh, cur, b, cnt);
    }
  }

  lemma IndexedNarrowed(pl: Payload, ty: Ty, sh: Shape, cur: Value, b: Body, cnt: Counters)
    requires ShapeOk(ty, sh) && Shaped(ty, cur) && b.Indexed? && PutIn(pl, ty, cur, b, cnt).Success?
    ensures Projects(ty, sh, PutIn(pl, ty, cur, b, cnt), PutIn(pl, Narrowed(ty, sh), Projected(ty, sh, cur), b, cnt))
  {
    var all, at := pl[b.field], cnt[b.field];
    if b.ty != ARRAY {
      OneNarrowed(ty, sh, cur, all[at]);
    } else if b.count > 0 {
      ManyNarrowed(ty, sh, cur, all[at..at + b.count]);
    }
  }

  lemma {:induction false} ObjsNarrowed(pl: Payload, ty: Ty, sh: Shape, cur: Value, b: Body, cnt: Counters)
    requires ShapeOk(ty, sh) && Shaped(ty, cur) && b.Objs? && PutIn(pl, ty, cur, b, cnt).Success?
    ensures Projects(ty, sh, PutIn(pl, ty, cur, b, cnt), PutIn(pl, Narrowed(ty, sh), Projected(ty, sh, cur), b, cnt))
    decreases b, 1
  {
    var e, s := ty.elem, Under(sh);
    ListNarrowed(ty, sh);
    ElemsProjected(ty, sh, cur);
    if ty.TSlice? {
      ElemsNarrowed(pl, e, s, [], b.docs, cnt);
      PlacedNarrowed(ty, sh, cur, DecElems(pl, e, [], b.docs, cnt).value);
    } else {
      ElemsNarrowed(pl, e, s, Elems(cur), b.docs, cnt);
      PlacedNarrowed(ty, sh, cur, DecElems(pl, e, Elems(cur), b.docs, cnt).value);
    }
  }

  lemma {:induction false} ElemsNarrowed(pl: Payload, e: Ty, s: Shape, olds: seq<Value>, ds: seq<Doc>, cnt: Counters)
    requires ShapeOk(e, s) && AllShaped(e, olds)
    ensures ElemsProject(e, s, |ds|, DecElems(pl, e, olds, ds, cnt), DecElems(pl, Narrowed(e, s), ProjectedAll(e, s, olds), ds, cnt))
    decreases ds, 6
  {
    if ds != [] {
      var old1, rest := if olds == [] then Zero(e) else olds[0], if olds == [] then [] else olds[1..];
      ZeroShaped(e);
      Projection(pl, e, s, old1, ds[0], cnt);
      ElemsNarrowed(pl, e, s, rest, ds[1..], CountDoc(ds[0], cnt));
      FirstNarrowed(pl, e, s, olds, ds, cnt);
    }
  }

  lemma FirstNarrowed(pl: Payload, e: Ty, s: Shape, olds: seq<Value>, ds: seq<Doc>, cnt: Counters)
    requires ShapeOk(e, s) && ds != []
    requires var old1, rest, n := if olds == [] then Zero(e) else olds[0], if olds == [] then [] else olds[1..], Narrowed(e, s);
      && Projects(e, s, Dec(pl, e, old1, ds[0], cnt), Dec(pl, n, Projected(e, s, old1), ds[0], cnt))
      && ElemsProject(e, s, |ds| - 1, DecElems(pl, e, rest, ds[1..], CountDoc(ds[0], cnt)),
                      DecElems(pl, n, ProjectedAll(e, s, rest), ds[1..], CountDoc(ds[0], cnt)))
    ensures ElemsProject(e, s, |ds|, DecElems(pl, e, olds, ds, cnt), DecElems(pl, Narrowed(e, s), ProjectedAll(e, s, olds), ds, cnt))
  {
    ZeroProjected(e, s);
    var old1, rest := if olds == [] then Zero(e) else olds[0], if olds == [] then [] else olds[1..];
    var x, xs := Dec(pl, e, old1, ds[0], cnt), DecElems(pl, e, rest, ds[1..], CountDoc(ds[0], cnt));
    assert olds != [] ==> ProjectedAll(e, s, olds)[1..] == ProjectedAll(e, s, rest);
    if x.Success? && xs.Success? {
      AppendProjected(e, s, [x.value], xs.value);
      assert ProjectedAll(e, s, [x.value]) == [Projected(e, s, x.value)];
    }
  }

  ghost predicate ElemsProject(e: Ty, s: Shape, n: nat, r: Result<seq<Value>, Fault>, r': Result<seq<Value>, Fault>) {
    r.Success? ==>
      && |r.value| == n && AllShaped(e, r.value)
      && r' == Success(ProjectedAll(e, s, r.value))
  }

  lemma {:induction false} AllNarrowed(pl: Payload, ty: Ty, sh: Shape, cur: Value, ds: seq<Doc>, cnt: Counters)
    requires ShapeOk(ty, sh) && Shaped(ty, cur)
    ensures Projects(ty, sh, DecAll(pl, ty, cur, ds, cnt), DecAll(pl, Narrowed(ty, sh), Projected(ty, sh, cur), ds, cnt))
    decreases ds, 6
  {
    if ds != [] {
      Projection(pl, ty, sh, cur, ds[0], cnt);
      var r := Dec(pl, ty, cur, ds[0], cnt);
      if r.Success? {
        AllNarrowed(pl, ty, sh, r.value, ds[1..], CountDoc(ds[0], cnt));
      }
    }
  }

  // So an encoded struct decodes into any narrower struct, to the projection of what
  // comes back of it.
  lemma NarrowTrip(pl: Payload, ty: Ty, sh: Shape, v: Value, cnt: Counters)
    requires ty.TStruct? && Covered(ty) && HasType(ty, v) && ShapeOk(ty, sh)
    ensures var n, ds := Narrowed(ty, sh), Enc(None, false, TPtr(ty), VPtr(v));
      |ds| == 1 && Dec(pl, TPtr(n), VPtr(Zero(n)), ds[0], cnt) == Success(VPtr(Projected(ty, sh, BackIn(false, ty, v))))
  {
    InnerTrip(pl, None, false, ty, v, cnt);
    var d := Enc(None, false, TPtr(ty), VPtr(v))[0];
    assert Dec(pl, TPtr(ty), VPtr(Zero(ty)), d, cnt) == Put(pl, TPtr(ty), VPtr(Zero(ty)), d.body, cnt);
    ZeroShaped(ty);
    ZeroProjected(ty, sh);
    Projection(pl, TPtr(ty), Inside(sh), VPtr(Zero(ty)), d, cnt);
  }
}
