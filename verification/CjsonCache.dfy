// ctagsCache: a trie from tag paths to field index paths. It behaves as a map in which
// every path starts out with the empty index.

module CTagsCache {
  import opened Wrappers

  datatype Cache = Cache(entries: seq<Entry>)
  datatype Entry = Entry(structIdx: seq<nat>, subCache: Cache)

  function Empty(): Entry { Entry([], Cache([])) }

  // None stands for the nil pointer.
  function Find(c: Cache, path: seq<nat>): Option<seq<nat>>
    requires path != []
    decreases path
  {
    if |c.entries| <= path[0] then None
    else if |path| == 1 then Some(c.entries[path[0]].structIdx)
    else Find(c.entries[path[0]].subCache, path[1..])
  }

  function Grown(entries: seq<Entry>, n: nat): (r: seq<Entry>)
    ensures |r| == (if |entries| > n then |entries| else n)
    ensures forall i :: 0 <= i < |r| ==> r[i] == if i < |entries| then entries[i] else Empty()
    decreases n - |entries|
  {
    if |entries| >= n then entries else Grown(entries + [Empty()], n)
  }

  function FindOrAdd(c: Cache, path: seq<nat>): Cache
    requires path != []
    decreases path
  {
    var es := Grown(c.entries, path[0] + 1);
    if |path| == 1 then Cache(es)
    else Cache(es[path[0] := Entry(es[path[0]].structIdx, FindOrAdd(es[path[0]].subCache, path[1..]))])
  }

  // Assignment through the pointer FindOrAdd returned.
  function Store(c: Cache, path: seq<nat>, idx: seq<nat>): Cache
    requires path != [] && Find(c, path).Some?
    decreases path
  {
    var e := c.entries[path[0]];
    if |path| == 1 then Cache(c.entries[path[0] := Entry(idx, e.subCache)])
    else Cache(c.entries[path[0] := Entry(e.structIdx, Store(e.subCache, path[1..], idx))])
  }

  // The map the trie stands for.
  function Get(c: Cache, path: seq<nat>): seq<nat>
    requires path != []
  {
    if Find(c, path).Some? then Find(c, path).value else []
  }

  lemma {:induction false} AddChangesNothing(c: Cache, path: seq<nat>, q: seq<nat>)
    requires path != [] && q != []
    ensures Get(FindOrAdd(c, path), q) == Get(c, q)
    ensures Find(FindOrAdd(c, path), path).Some?
    decreases |path|
  {
    if |path| > 1 {
      var es := Grown(c.entries, path[0] + 1);
      AddChangesNothing(es[path[0]].subCache, path[1..], if |q| > 1 then q[1..] else path[1..]);
    }
    if |c.entries| <= q[0] && |q| > 1 {
      NothingIn(q[1..]);
    }
  }

  lemma NothingIn(q: seq<nat>)
    requires q != []
    ensures Find(Cache([]), q).None?
  {
  }

  lemma {:induction false} StoreChangesOne(c: Cache, path: seq<nat>, idx: seq<nat>, q: seq<nat>)
    requires path != [] && q != [] && Find(c, path).Some?
    ensures Get(Store(c, path, idx), q) == if q == path then idx else Get(c, q)
    decreases |path|
  {
    if |path| > 1 && |q| > 1 && q[0] == path[0] {
      StoreChangesOne(c.entries[path[0]].subCache, path[1..], idx, q[1..]);
      assert q == path <==> q[1..] == path[1..] by {
        assert q == [q[0]] + q[1..] && path == [path[0]] + path[1..];
      }
    }
  }
}
