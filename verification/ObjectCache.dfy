// The cache of decoded objects (unpackItem in bindings.go), with any number of results
// being unpacked at once: a lookup and an insertion are atomic, what is between is not.

module ObjectCache {
  import opened Wrappers

  datatype Key = Key(id: int, shardID: int, nsTag: int)

  // What an item decodes to: its key, version and sharding version determine it.
  datatype Content = Content(key: Key, version: int, sharding: int)

  // cacheItem; objects are known by a number
  datatype CItem = CItem(obj: nat, itemVersion: int, shardingVersion: int)

  // One call of unpackItem for data that the caches may serve (useCache), or not.
  datatype Request = Request(want: Content, useCache: bool, needCopy: bool, allowUnsafe: bool)

  datatype Call = Ready(r: Request) | Decoded(r: Request, obj: nat, citem: Option<CItem>)

  datatype Given = Given(r: Request, obj: nat, content: Content)

  // `given` and `cached` are auxiliary: what the calls returned, and all objects that
  // ever were in the cache.
  datatype State = State(
    cache: map<Key, CItem>, heap: map<nat, Content>, next: nat, calls: map<nat, Call>,
    given: map<nat, Given>, cached: set<nat>)

  function Start(): State { State(map[], map[], 0, map[], map[], {}) }

  // useCache and needCopy as unpackItem works them out: an item without deep copy is
  // cached only for unsafe access, and one with it is copied unless access is unsafe.
  predicate Possible(r: Request) {
    (r.useCache && !r.allowUnsafe ==> r.needCopy) && (r.needCopy ==> !r.allowUnsafe)
  }

  datatype Action =
    | Begin(c: nat, r: Request)
    | Lookup(c: nat)
    | Fail(c: nat)                     // decoding ends with an error
    | Insert(c: nat)
    | Evict(key: Key)
    | Mutate(c: nat, content: Content) // a caller changes an object it got for its own

  predicate Enabled(s: State, a: Action) {
    match a
    case Begin(c, r) => c !in s.calls && c !in s.given && Possible(r)
    case Lookup(c) => c in s.calls && s.calls[c].Ready?
    case Fail(c) => c in s.calls
    case Insert(c) => c in s.calls && s.calls[c].Decoded?
    case Evict(key) => key in s.cache
    case Mutate(c, _) => c in s.given && !s.given[c].r.allowUnsafe
  }

  // The object goes to the caller, as a copy if need be.
  function Give(s: State, c: nat, r: Request, obj: nat): State
    requires obj in s.heap
  {
    if r.needCopy && r.useCache then
      s.(heap := s.heap[s.next := s.heap[obj]], next := s.next + 1, calls := s.calls - {c},
         given := s.given[c := Given(r, s.next, s.heap[obj])])
    else s.(calls := s.calls - {c}, given := s.given[c := Given(r, obj, s.heap[obj])])
  }

  function Fresh(s: State, want: Content): State { s.(heap := s.heap[s.next := want], next := s.next + 1) }

  predicate Hit(s: State, r: Request) {
    r.want.key in s.cache && var item := s.cache[r.want.key];
    item.itemVersion == r.want.version && item.shardingVersion == r.want.sharding
  }

  predicate Puts(r: Request, citem: Option<CItem>) {
    citem.None? || r.want.version > citem.value.itemVersion || citem.value.shardingVersion != r.want.sharding
  }

  function Do(s: State, a: Action): State
    requires Enabled(s, a) && Sound(s)
  {
    match a
    case Begin(c, r) => s.(calls := s.calls[c := Ready(r)])
    case Lookup(c) =>
      var r := s.calls[c].r;
      if !r.useCache then Give(Fresh(s, r.want), c, r, s.next)
      else if Hit(s, r) then Give(s, c, r, s.cache[r.want.key].obj)
      else
        var found := if r.want.key in s.cache then Some(s.cache[r.want.key]) else None;
        Fresh(s, r.want).(calls := s.calls[c := Decoded(r, s.next, found)])
    case Fail(c) => s.(calls := s.calls - {c})
    case Insert(c) =>
      var r, obj := s.calls[c].r, s.calls[c].obj;
      var s' := if Puts(r, s.calls[c].citem)
        then s.(cache := s.cache[r.want.key := CItem(obj, r.want.version, r.want.sharding)], cached := s.cached + {obj})
        else s;
      Give(s', c, r, obj)
    case Evict(key) => s.(cache := s.cache - {key})
    case Mutate(c, content) => s.(heap := s.heap[s.given[c].obj := content])
  }

  // ---- what every step keeps ----

  // References lead to objects.
  ghost predicate Sound(s: State) {
    && (forall n :: n in s.heap ==> n < s.next)
    && (forall k :: k in s.cache ==> s.cache[k].obj in s.heap)
    && (forall c :: c in s.calls && s.calls[c].Decoded? ==> s.calls[c].obj in s.heap)
    && (forall c :: c in s.given ==> s.given[c].obj in s.heap)
  }

  // A cached object is what its key and versions decode to, and so is one about to be
  // cached; requests are possible ones.
  ghost predicate CacheFits(s: State) {
    forall k :: k in s.cache ==>
      s.cache[k].obj in s.heap && s.heap[s.cache[k].obj] == Content(k, s.cache[k].itemVersion, s.cache[k].shardingVersion)
  }

  ghost predicate CallsFit(s: State) {
    && (forall c :: c in s.calls && s.calls[c].Decoded? ==>
          s.calls[c].obj in s.heap && s.heap[s.calls[c].obj] == s.calls[c].r.want && s.calls[c].r.useCache)
    && (forall c :: c in s.calls ==> Possible(s.calls[c].r))
  }

  ghost predicate Fitting(s: State) { CacheFits(s) && CallsFit(s) }

  // An object that a caller has for its own is not in the cache and will not be.
  ghost predicate Separate(s: State) {
    && (forall k :: k in s.cache ==> s.cache[k].obj in s.cached)
    && (forall n :: n in s.cached ==> n < s.next)
    && (forall c :: c in s.given && !s.given[c].r.allowUnsafe ==> s.given[c].obj !in s.cached)
    && (forall c, d :: c in s.given && !s.given[c].r.allowUnsafe && d in s.calls && s.calls[d].Decoded? ==>
          s.given[c].obj != s.calls[d].obj)
  }

  ghost predicate Right(s: State) {
    forall c :: c in s.given ==> s.given[c].content == s.given[c].r.want
  }

  lemma KeepsSound(s: State, a: Action)
    requires Sound(s) && Enabled(s, a)
    ensures Sound(Do(s, a))
  {
  }

  lemma KeepsCacheFits(s: State, a: Action)
    requires Sound(s) && Fitting(s) && Separate(s) && Enabled(s, a)
    ensures CacheFits(Do(s, a))
  {
  }

  lemma KeepsCallsFit(s: State, a: Action)
    requires Sound(s) && Fitting(s) && Separate(s) && Enabled(s, a)
    ensures CallsFit(Do(s, a))
  {
  }

  lemma KeepsSeparate(s: State, a: Action)
    requires Sound(s) && Fitting(s) && Separate(s) && Enabled(s, a)
    ensures Separate(Do(s, a))
  {
  }

  lemma KeepsRight(s: State, a: Action)
    requires Sound(s) && Fitting(s) && Right(s) && Enabled(s, a)
    ensures Right(Do(s, a))
  {
  }

  ghost predicate CanRun(s: State, run: seq<Action>)
    requires Sound(s)
    decreases |run|
  {
    run == [] || (Enabled(s, run[0]) && (KeepsSound(s, run[0]); CanRun(Do(s, run[0]), run[1..])))
  }

  ghost function After(s: State, run: seq<Action>): (s': State)
    requires Sound(s) && CanRun(s, run)
    ensures Sound(s')
    decreases |run|
  {
    if run == [] then s else KeepsSound(s, run[0]); After(Do(s, run[0]), run[1..])
  }

  lemma {:induction false} RunKeeps(s: State, run: seq<Action>)
    requires Sound(s) && CanRun(s, run) && Fitting(s) && Separate(s) && Right(s)
    ensures Fitting(After(s, run)) && Separate(After(s, run)) && Right(After(s, run))
    decreases |run|
  {
    if run != [] {
      KeepsSound(s, run[0]);
      KeepsCacheFits(s, run[0]);
      KeepsCallsFit(s, run[0]);
      KeepsSeparate(s, run[0]);
      KeepsRight(s, run[0]);
      RunKeeps(Do(s, run[0]), run[1..]);
    }
  }

  // However lookups, insertions, evictions and callers' changes to their objects run
  // into each other, every result is what decoding afresh would have given, and no
  // object of the cache is handed to a caller who did not ask for unsafe access.
  lemma CacheAgrees(run: seq<Action>, c: nat)
    requires CanRun(Start(), run) && c in After(Start(), run).given
    ensures var s := After(Start(), run);
      && s.given[c].content == s.given[c].r.want
      && (!s.given[c].r.allowUnsafe ==> forall k :: k in s.cache ==> s.cache[k].obj != s.given[c].obj)
  {
    RunKeeps(Start(), run);
  }

  // ---- versions in the cache ----

  // The step leaves an older version of an item in the cache than there was, within one
  // version of the sharding.
  predicate Lowers(s: State, s': State, k: Key) {
    k in s.cache && k in s'.cache && s.cache[k].shardingVersion == s'.cache[k].shardingVersion
    && s'.cache[k].itemVersion < s.cache[k].itemVersion
  }

  // A cached item that r's content would lower.
  predicate Newer(item: CItem, r: Request) {
    item.shardingVersion == r.want.sharding && item.itemVersion > r.want.version
  }

  // Call c is past its lookup and its insertion will put.
  predicate Putting(s: State, c: nat) {
    c in s.calls && s.calls[c].Decoded? && Puts(s.calls[c].r, s.calls[c].citem)
  }

  predicate Touches(s: State, a: Action, k: Key) {
    a == Evict(k) || (a.Insert? && Putting(s, a.c) && s.calls[a.c].r.want.key == k)
  }

  // No step of the run puts or evicts the key.
  ghost predicate Untouched(s: State, run: seq<Action>, k: Key)
    requires Sound(s) && CanRun(s, run)
    decreases |run|
  {
    run != [] ==> !Touches(s, run[0], k) && (KeepsSound(s, run[0]); Untouched(Do(s, run[0]), run[1..], k))
  }

  // Step a puts a version newer than r's, of the same sharding.
  predicate Outdates(s: State, a: Action, r: Request) {
    && a.Insert? && Putting(s, a.c)
    && var other := s.calls[a.c].r.want;
    && other.key == r.want.key && other.sharding == r.want.sharding && other.version > r.want.version
  }

  // Some step of the run puts a newer version than r's, which stays to the end.
  ghost predicate Overtaken(s: State, run: seq<Action>, r: Request)
    requires Sound(s) && CanRun(s, run)
    decreases |run|
  {
    run != [] && (KeepsSound(s, run[0]);
      || (Outdates(s, run[0], r) && Untouched(Do(s, run[0]), run[1..], r.want.key))
      || Overtaken(Do(s, run[0]), run[1..], r))
  }

  // What is cached at the end of a run came in during it, or was there and stayed.
  lemma {:induction false} EndsNewer(s: State, run: seq<Action>, r: Request)
    requires Sound(s) && CanRun(s, run)
    ensures var k, t := r.want.key, After(s, run);
      k in t.cache && Newer(t.cache[k], r) <==>
        Overtaken(s, run, r) || (Untouched(s, run, k) && k in s.cache && Newer(s.cache[k], r))
    decreases |run|
  {
    if run != [] {
      KeepsSound(s, run[0]);
      EndsNewer(Do(s, run[0]), run[1..], r);
      TouchedEntry(s, run[0], r);
    }
  }

  lemma TouchedEntry(s: State, a: Action, r: Request)
    requires Sound(s) && Enabled(s, a)
    ensures var k, t := r.want.key, Do(s, a);
      && (!Touches(s, a, k) ==> (k in t.cache <==> k in s.cache) && (k in s.cache ==> t.cache[k] == s.cache[k]))
      && (Touches(s, a, k) ==> (k in t.cache && Newer(t.cache[k], r) <==> Outdates(s, a, r)))
  {
  }

  lemma {:induction false} StaysDecoded(s: State, c: nat, run: seq<Action>)
    requires Sound(s) && CanRun(s, run) && Lookup(c) !in run
    ensures var t := After(s, run);
      c in t.calls && t.calls[c].Decoded? ==> c in s.calls && s.calls[c] == t.calls[c]
    decreases |run|
  {
    if run != [] {
      KeepsSound(s, run[0]);
      StaysDecoded(Do(s, run[0]), c, run[1..]);
    }
  }

  // An insertion that puts lowers the version exactly when, between the lookup of its
  // call and now, another call put a newer version of the same sharding which is still
  // there.
  lemma LowersExactly(s: State, c: nat, between: seq<Action>, k: Key)
    requires Sound(s) && Enabled(s, Lookup(c))
    requires Sound(Do(s, Lookup(c))) && CanRun(Do(s, Lookup(c)), between) && Lookup(c) !in between
    requires Enabled(After(Do(s, Lookup(c)), between), Insert(c))
    ensures var looked := Do(s, Lookup(c));
      var now := After(looked, between);
      Lowers(now, Do(now, Insert(c)), k) <==>
        now.calls[c].r.want.key == k && Putting(now, c) && Overtaken(looked, between, now.calls[c].r)
  {
    var looked := Do(s, Lookup(c));
    var now := After(looked, between);
    StaysDecoded(looked, c, between);
    EndsNewer(looked, between, now.calls[c].r);
  }

  // No other step lowers it.
  lemma OnlyInsertLowers(s: State, a: Action, k: Key)
    requires Sound(s) && Enabled(s, a) && Lowers(s, Do(s, a), k)
    ensures a.Insert? && Putting(s, a.c) && Newer(s.cache[k], s.calls[a.c].r)
  {
  }

  // A call looks up a key only while no other call is between its lookup of that key and
  // its insertion.
  ghost predicate InTurn(s: State, run: seq<Action>)
    requires Sound(s) && CanRun(s, run)
    decreases |run|
  {
    run != [] ==>
      && (run[0].Lookup? ==> Alone(s, s.calls[run[0].c].r.want.key))
      && (KeepsSound(s, run[0]); InTurn(Do(s, run[0]), run[1..]))
  }

  predicate Alone(s: State, k: Key) {
    forall d :: d in s.calls && s.calls[d].Decoded? ==> s.calls[d].r.want.key != k
  }

  // Calls past their lookup are one to a key, and found what is there now.
  ghost predicate Undisturbed(s: State) {
    && (forall c, d :: c in s.calls && d in s.calls && s.calls[c].Decoded? && s.calls[d].Decoded? && c != d ==>
          s.calls[c].r.want.key != s.calls[d].r.want.key)
    && (forall c :: c in s.calls && s.calls[c].Decoded? && s.calls[c].r.want.key in s.cache ==>
          s.calls[c].citem == Some(s.cache[s.calls[c].r.want.key]))
  }

  lemma KeepsUndisturbed(s: State, a: Action)
    requires Sound(s) && Fitting(s) && Undisturbed(s) && Enabled(s, a)
    requires a.Lookup? ==> Alone(s, s.calls[a.c].r.want.key)
    ensures Undisturbed(Do(s, a))
  {
  }

  ghost predicate NeverLowered(s: State, run: seq<Action>, k: Key)
    requires Sound(s) && CanRun(s, run)
    decreases |run|
  {
    run != [] ==> !Lowers(s, Do(s, run[0]), k) && (KeepsSound(s, run[0]); NeverLowered(Do(s, run[0]), run[1..], k))
  }

  // A version never goes down in a run whose calls on one key do not overlap.
  lemma NeverLowersInTurn(run: seq<Action>, k: Key)
    requires CanRun(Start(), run) && InTurn(Start(), run)
    ensures NeverLowered(Start(), run, k)
  {
    InTurnFrom(Start(), run, k);
  }

  lemma {:induction false} InTurnFrom(s: State, run: seq<Action>, k: Key)
    requires Sound(s) && Fitting(s) && Separate(s) && Undisturbed(s) && CanRun(s, run) && InTurn(s, run)
    ensures NeverLowered(s, run, k)
    decreases |run|
  {
    if run != [] {
      var a := run[0];
      if Lowers(s, Do(s, a), k) {
        OnlyInsertLowers(s, a, k);
        assert false;
      }
      KeepsSound(s, a);
      KeepsCacheFits(s, a);
      KeepsCallsFit(s, a);
      KeepsSeparate(s, a);
      KeepsUndisturbed(s, a);
      InTurnFrom(Do(s, a), run[1..], k);
    }
  }

  // When they overlap, it can: of two calls that both miss, the one with the older version
  // inserts last.
  lemma InterruptedLowers(k: Key) returns (run: seq<Action>, a: Action)
    ensures CanRun(Start(), run) && Enabled(After(Start(), run), a)
    ensures Lowers(After(Start(), run), Do(After(Start(), run), a), k)
  {
    var r1 := Request(Content(k, 1, 0), true, true, false);
    var r2 := Request(Content(k, 2, 0), true, true, false);
    run := Then([], Begin(1, r1));
    run := Then(run, Begin(2, r2));
    run := Then(run, Lookup(1));
    run := Then(run, Lookup(2));
    run := Then(run, Insert(2));
    a := Insert(1);
  }

  lemma Then(run: seq<Action>, a: Action) returns (longer: seq<Action>)
    requires CanRun(Start(), run) && Enabled(After(Start(), run), a)
    ensures CanRun(Start(), longer) && After(Start(), longer) == Do(After(Start(), run), a)
  {
    Chain(Start(), run, a);
    longer := run + [a];
  }

  lemma {:induction false} Chain(s: State, run: seq<Action>, a: Action)
    requires Sound(s) && CanRun(s, run) && Enabled(After(s, run), a)
    ensures CanRun(s, run + [a]) && After(s, run + [a]) == Do(After(s, run), a)
    decreases |run|
  {
    if run == [] {
      assert run + [a] == [a] && [a][1..] == [];
      KeepsSound(s, a);
    } else {
      KeepsSound(s, run[0]);
      Chain(Do(s, run[0]), run[1..], a);
      assert (run + [a])[1..] == run[1..] + [a];
    }
  }
}
