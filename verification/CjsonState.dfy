// cjson.State: the dictionary of an item type, and the caches that live as long as it does.

module CjsonState {
  import opened Wrappers
  import opened Varint
  import opened CTagsCache
  import opened CjsonWire
  import opened GoTypes
  import opened CjsonCodec
  import opened CjsonSerializer
  import opened CjsonDecoder
  import opened CjsonEncoder
  import opened CjsonFrame

  // ctagsCache of one destination type, with its set of tag paths the type lacks
  datatype ReadCache = ReadCache(cache: Cache, missing: set<seq<nat>>)

  function NoCache(): ReadCache { ReadCache(Cache([]), {}) }

  // What the read caches may hold under a dictionary: right answers.
  ghost predicate CachesOk(tags: seq<Text>, caches: map<Ty, ReadCache>) {
    forall ty :: ty in caches ==> CacheOk(ty, tags, caches[ty].cache, caches[ty].missing)
  }

  function Int32(v: nat): int { Wrap(32, true, v) }

  class StateData {
    var tags: seq<Text>
    var structCache: map<Ty, ReadCache>
    var ctagsWCache: WCache
    var version: int
    var stateToken: int

    constructor (version: int, stateToken: int)
      ensures tags == [] && structCache == map[] && ctagsWCache == WCache([])
      ensures this.version == version && this.stateToken == stateToken
    {
      tags, structCache, ctagsWCache := [], map[], WCache([]);
      this.version, this.stateToken := version, stateToken;
    }
  }

  // `item` is the type of the items encoded under this state.
  class State {
    const item: Ty
    var data: StateData

    ghost predicate Valid()
      reads this, data
    {
      CachesOk(data.tags, data.structCache) && WCacheOk(data.tags, item, data.ctagsWCache)
    }

    constructor (item: Ty)
      ensures Valid() && this.item == item && data.tags == [] && data.version == -1 && fresh(data)
    {
      this.item := item;
      data := new StateData(-1, 0);
    }

    constructor Sharing(item: Ty, data: StateData)
      ensures this.item == item && this.data == data
    {
      this.item, this.data := item, data;
    }

    method Copy() returns (s: State)
      ensures fresh(s) && s.item == item && s.data == data
    {
      s := new State.Sharing(item, data);
    }

    // Known versions are kept, dictionary and caches; otherwise there is a new dictionary
    // and no cache outlives the old one. `token`, `ver`, `names` and `tail` say what the
    // bytes should be.
    method ReadPayloadType(ser: Serializer, ghost token: nat, ghost ver: nat, ghost names: seq<Text>, ghost tail: seq<byte>)
      returns (ok: bool, local: State)
      requires Valid() && ser.Valid() && 0 <= ser.pos <= ser.len
      modifies this`data, ser`pos
      ensures Valid() && fresh(local) && local.item == item && local.data == data
      ensures HeaderAt(old(ser.Rest()), token, ver, names, tail) ==> ok && 0 <= ser.pos <= ser.len && ser.Rest() == tail
      ensures HeaderAt(old(ser.Rest()), token, ver, names, tail) ==>
        if old(data.version) >= Int32(ver) && old(data.stateToken) == Int32(token) then data == old(data)
        else
          && fresh(data) && data.version == Int32(ver) && data.stateToken == Int32(token)
          && data.tags == names && data.structCache == map[] && data.ctagsWCache == WCache([])
    {
      ghost var on := HeaderAt(ser.Rest(), token, ver, names, tail);
      if on { ReadNumber(token, Bytes(ver) + (DictBytes(names) + tail), ser.Rest()); }
      var t: nat, v: nat;
      ok, t := ser.GetVarUInt();
      if on { ReadNumber(ver, DictBytes(names) + tail, ser.Rest()); }
      if ok {
        ok, v := ser.GetVarUInt();
      }
      if ok && 0 <= ser.pos <= ser.len {
        var skip := data.version >= Int32(v) && data.stateToken == Int32(t);
        if !skip {
          data := new StateData(Int32(v), Int32(t));
        }
        var tags;
        ok, tags := ReadTags(ser, skip, data.tags, names, tail);
        if !skip {
          data.tags := tags;
        }
      } else {
        ok := false;
      }
      local := Copy();
    }

    // A decoder of this state at work: it finds the cache of its type or puts an empty one
    // there, and what it learns stays.
    method Decode(ty: Ty, cur: Value, pl: Payload, ser: Serializer, ghost d: Doc, ghost tail: seq<byte>)
      returns (ok: bool, v: Value)
      requires Valid() && ser.Valid() && 0 <= ser.pos <= ser.len
      modifies data`structCache, ser`pos
      ensures Valid()
      ensures DocFits(data.tags, d) && old(ser.Rest()) == DocBytes(data.tags, d) + tail ==>
        var r := Dec(pl, ty, cur, d, seq(256, i => 0));
        ok == r.Success? && (ok ==> v == r.value && 0 <= ser.pos <= ser.len && ser.Rest() == tail)
    {
      EmptyCacheOk(ty, data.tags);
      var c := if ty in data.structCache then data.structCache[ty] else NoCache();
      var dec := new Decoder(ty, data.tags, pl, ser, c.cache, c.missing);
      ok, v := dec.Decode(cur, d, tail);
      data.structCache := data.structCache[ty := ReadCache(dec.cache, dec.missing)];
    }

    // New names go into the dictionary, unless the encoder panics; the read caches stay.
    method EncodeRaw(v: Value, ser: Serializer) returns (ok: bool)
      requires Valid() && ser.Valid() && Covered(item) && HasType(item, v)
      modifies data`tags, data`ctagsWCache, ser, ser.arr
      ensures Valid() && ser.Valid() && (ok <==> Encodes(false, item, v))
      ensures data.tags == if ok then Learn(old(data.tags), Looks(false, item, v)) else old(data.tags)
      ensures ok ==> KeysIn(data.tags, Enc(None, false, item, v))
      ensures ok ==> ser.Contents() == old(ser.Contents()) + DocsBytes(data.tags, Enc(None, false, item, v))
    {
      var enc := new Encoder(data.tags, ser);
      var c;
      ok, c := enc.EncodeRaw(item, v, data.ctagsWCache);
      LearnExtends(data.tags, Looks(false, item, v));
      CachesStay(data.tags, enc.tags, data.structCache);
      data.tags, data.ctagsWCache := enc.tags, c;
    }

    // New names go along with the item, and the dictionary stays.
    method Encode(v: Value, ser: Serializer) returns (ok: bool)
      requires Valid() && ser.Valid() && Covered(item) && HasType(item, v)
      requires |Learn(data.tags, Looks(false, item, v))| < 0x1_0000_0000_0000_0000
      modifies data`ctagsWCache, ser, ser.arr
      ensures Valid() && ser.Valid() && (ok <==> Encodes(false, item, v))
      ensures ok ==>
        var learnt, ds := Learn(data.tags, Looks(false, item, v)), Enc(None, false, item, v);
        && KeysIn(learnt, ds)
        && ser.Contents() == old(ser.Contents())
             + (if learnt == data.tags then DocsBytes(data.tags, ds) else Framed(DocsBytes(learnt, ds), DictBytes(learnt)))
    {
      var enc := new Encoder(data.tags, ser);
      var c;
      ok, c := enc.Encode(item, v, data.ctagsWCache);
      data.ctagsWCache := c;
    }
  }

  // The start of a payload type: state token, version, dictionary.
  ghost predicate HeaderAt(rest: seq<byte>, token: nat, ver: nat, names: seq<Text>, tail: seq<byte>) {
    && token < 0x1_0000_0000_0000_0000 && ver < 0x1_0000_0000_0000_0000 && |names| < 0x8000_0000_0000_0000
    && rest == Bytes(token) + (Bytes(ver) + (DictBytes(names) + tail))
  }

  // ---- caches and dictionaries ----

  lemma {:induction false} ContainerStays(root: Ty, a: seq<Text>, b: seq<Text>, path: seq<nat>)
    requires a <= b
    ensures Container(root, a, path).Some? ==> Container(root, b, path) == Container(root, a, path)
    decreases |path|
  {
    if path != [] {
      ContainerStays(root, a, b, path[..|path| - 1]);
    }
  }

  // Answers under a dictionary are answers under one that has more names.
  lemma RightStays(root: Ty, a: seq<Text>, b: seq<Text>, path: seq<nat>, r: Option<seq<nat>>)
    requires a <= b && Right(root, a, path, r)
    ensures Right(root, b, path, r)
  {
    ContainerStays(root, a, b, path[..|path| - 1]);
  }

  lemma CachesStay(a: seq<Text>, b: seq<Text>, caches: map<Ty, ReadCache>)
    requires a <= b && CachesOk(a, caches)
    ensures CachesOk(b, caches)
  {
    forall ty | ty in caches ensures CacheOk(ty, b, caches[ty].cache, caches[ty].missing) {
      var c := caches[ty];
      assert CacheOk(ty, a, c.cache, c.missing);
      forall p: seq<nat> | p != [] && Get(c.cache, p) != [] ensures Right(ty, b, p, Some(Get(c.cache, p))) {
        RightStays(ty, a, b, p, Some(Get(c.cache, p)));
      }
      forall p | p in c.missing ensures Right(ty, b, p, None) {
        RightStays(ty, a, b, p, None);
      }
    }
  }

  // Under another dictionary they need not be: the caches have to go with the dictionary.
  // A struct with fields x and y, and a cache that has x under tag 1.
  lemma ReplacedDictionaryNeedsNewCaches(x: Field, y: Field)
    requires x.name != y.name && !x.embedded && !y.embedded
    ensures var ty, c := TStruct([x, y]), Cache([Empty(), Entry([0], Cache([]))]);
      && Right(ty, [x.name], [1], Some(Get(c, [1])))
      && !Right(ty, [y.name], [1], Some(Get(c, [1])))
  {
    var ty := TStruct([x, y]);
    assert [1][..0] == [];
    assert Container(ty, [x.name], []) == Container(ty, [y.name], []) == Some(ty);
    assert Locate(ty, 0, x.name) == Some([0]);
    assert Locate(ty, 0, y.name) == Locate(ty, 1, y.name) == Some([1]);
  }
}
