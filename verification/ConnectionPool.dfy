// The 512 slots over the one channel of sequence numbers.

module ConnectionPool {
  import opened SeqNums
  import opened ConnectionSlot
  import opened ConnectionInvariant
  import opened ConnectionTheorems
  import opened ConnectionRuns

  datatype Pool = Pool(slots: seq<Slot>, seqs: seq<nat>)

  function Start(): Pool {
    Pool(seq(512, (i: nat) => Init(i)), seq(512, (i: nat) => i))
  }

  // reqID := seq % queueSize
  function ReqId(num: nat): nat { num % 512 }

  predicate Sends(a: Action) {
    || (a.OfEntry? && a.entry.GiveBack?)
    || (a.OfSync? && a.sync.Return?)
    || (a.OfReader? && a.rd.RReturnToken?)
    || (a.OfTicker? && a.tk.TReturnToken?)
    || (a.OfSweep? && a.sw.WReturnToken?)
  }

  predicate Takes(a: Action) { a.OfEntry? && a.entry.Take? }

  // An action of slot i can go ahead but for the channel.
  predicate Ready(p: Pool, i: nat, a: Action) {
    && i < |p.slots| && Enabled(p.slots[i], a)
    && (Takes(a) ==> p.seqs != [] && ReqId(p.seqs[0]) == i)
  }

  predicate PoolEnabled(p: Pool, i: nat, a: Action) {
    Ready(p, i, a) && (Sends(a) ==> |p.seqs| < 512)
  }

  function Move(p: Pool, i: nat, a: Action): Pool
    requires PoolEnabled(p, i, a)
  {
    var s := Do(p.slots[i], a);
    var seqs := if Takes(a) then p.seqs[1..]
      else if Sends(a) && s.tokens != [] then p.seqs + [s.tokens[|s.tokens| - 1]]
      else p.seqs;
    Pool(p.slots[i := s], seqs)
  }

  predicate PoolCan(p: Pool, run: seq<(nat, Action)>)
    decreases |run|
  {
    run == [] || (PoolEnabled(p, run[0].0, run[0].1) && PoolCan(Move(p, run[0].0, run[0].1), run[1..]))
  }

  function PoolAfter(p: Pool, run: seq<(nat, Action)>): Pool
    requires PoolCan(p, run)
    decreases |run|
  {
    if run == [] then p else PoolAfter(Move(p, run[0].0, run[0].1), run[1..])
  }

  // What slot i does in a run of the pool.
  function Project(run: seq<(nat, Action)>, i: nat): seq<Action> {
    if run == [] then [] else (if run[0].0 == i then [run[0].1] else []) + Project(run[1..], i)
  }

  ghost predicate Slots(p: Pool) {
    && |p.slots| == 512
    && (forall i :: 0 <= i < 512 ==> p.slots[i].idx == i && Good(p.slots[i]))
  }

  // The channel holds the tokens of the slots, each once.
  ghost predicate Channel(p: Pool)
    requires |p.slots| == 512
  {
    && (forall k :: 0 <= k < |p.seqs| ==> p.slots[ReqId(p.seqs[k])].tokens == [p.seqs[k]])
    && (forall j, k :: 0 <= j < k < |p.seqs| ==> ReqId(p.seqs[j]) != ReqId(p.seqs[k]))
    && (forall i :: 0 <= i < 512 && p.slots[i].tokens != [] ==>
          p.slots[i].tokens[0] in p.seqs && ReqId(p.slots[i].tokens[0]) == i)
  }

  lemma InitGood(idx: nat)
    requires idx < 512
    ensures Good(Init(idx))
  {
    InitInv(idx);
  }

  lemma StartSlots()
    ensures Slots(Start())
  {
    forall i: nat | i < 512 ensures Good(Init(i)) {
      InitGood(i);
    }
  }

  lemma OwnId(k: nat)
    requires k < 512
    ensures ReqId(k) == k
  {
  }

  lemma StartChannel()
    ensures Channel(Start())
  {
    var p := Start();
    forall k | 0 <= k < 512 ensures p.seqs[k] == k && p.slots[k].tokens == [k] && ReqId(p.seqs[k]) == k {
      OwnId(k);
    }
    forall i | 0 <= i < 512 ensures p.slots[i].tokens[0] in p.seqs {
      assert p.seqs[i] == i;
    }
  }

  lemma ShareEntry(s: Slot, a: EntryAction)
    requires Tokens(s) && EnabledEntry(s, a)
    ensures a.Take? ==> |s.tokens| == 1 && DoEntry(s, a).tokens == []
    ensures a.GiveBack? ==> s.tokens == [] && |DoEntry(s, a).tokens| == 1
    ensures !a.Take? && !a.GiveBack? ==> DoEntry(s, a).tokens == s.tokens
  {
  }

  lemma ShareSync(s: Slot, a: SyncAction)
    requires Tokens(s) && EnabledSync(s, a)
    ensures a.Return? ==> s.tokens == [] && |DoSync(s, a).tokens| == 1
    ensures !a.Return? ==> DoSync(s, a).tokens == s.tokens
  {
  }

  lemma ShareAsync(s: Slot, a: AsyncAction)
    requires EnabledAsync(s, a)
    ensures DoAsync(s, a).tokens == s.tokens
  {
  }

  lemma ShareReader(s: Slot, a: ReaderAction)
    requires Tokens(s) && EnabledReader(s, a)
    ensures a.RReturnToken? ==> s.tokens == [] && |DoReader(s, a).tokens| == 1
    ensures !a.RReturnToken? ==> DoReader(s, a).tokens == s.tokens
  {
  }

  lemma ShareTicker(s: Slot, a: TickerAction)
    requires Tokens(s) && EnabledTicker(s, a)
    ensures a.TReturnToken? ==> s.tokens == [] && |DoTicker(s, a).tokens| == 1
    ensures !a.TReturnToken? ==> DoTicker(s, a).tokens == s.tokens
  {
  }

  lemma ShareSweep(s: Slot, a: SweepAction)
    requires Tokens(s) && EnabledSweep(s, a)
    ensures a.WReturnToken? ==> s.tokens == [] && |DoSweep(s, a).tokens| == 1
    ensures !a.WReturnToken? ==> DoSweep(s, a).tokens == s.tokens
  {
  }

  // What an action does to the slot's share of the channel.
  lemma Share(s: Slot, a: Action)
    requires Tokens(s) && Enabled(s, a)
    ensures Takes(a) ==> |s.tokens| == 1 && Do(s, a).tokens == []
    ensures Sends(a) ==> s.tokens == [] && |Do(s, a).tokens| == 1
    ensures !Takes(a) && !Sends(a) ==> Do(s, a).tokens == s.tokens
  {
    match a
    case OfEntry(x) => ShareEntry(s, x);
    case OfSync(x) => ShareSync(s, x);
    case OfAsync(x) => ShareAsync(s, x);
    case OfReader(x) => ShareReader(s, x);
    case OfTicker(x) => ShareTicker(s, x);
    case OfSweep(x) => ShareSweep(s, x);
  }

  lemma OwnNumber(s: Slot)
    requires Tokens(s) && s.tokens != []
    ensures ReqId(s.tokens[0]) == s.idx
  {
    SameNumber(s.idx, s.h.gen, s.idx, s.h.gen);
  }

  lemma KeepsIdx(s: Slot, a: Action)
    requires Enabled(s, a)
    ensures Do(s, a).idx == s.idx
  {
  }

  lemma MoveSlots(p: Pool, i: nat, a: Action)
    requires Slots(p) && PoolEnabled(p, i, a)
    ensures Slots(Move(p, i, a))
  {
    StepGood(p.slots[i], a);
    KeepsIdx(p.slots[i], a);
  }

  lemma MoveChannel(p: Pool, i: nat, a: Action)
    requires |p.slots| == 512 && Channel(p) && PoolEnabled(p, i, a)
    requires Tokens(p.slots[i]) && Tokens(Do(p.slots[i], a)) && p.slots[i].idx == i
    ensures Channel(Move(p, i, a))
  {
    var s := Do(p.slots[i], a);
    Share(p.slots[i], a);
    KeepsIdx(p.slots[i], a);
    if Takes(a) {
      AfterTake(p, i, s);
    } else if Sends(a) {
      OwnNumber(s);
      assert s.tokens == [s.tokens[|s.tokens| - 1]];
      AfterSend(p, i, s);
    } else {
      assert Move(p, i, a) == Pool(p.slots[i := s], p.seqs);
    }
  }

  lemma AfterTake(p: Pool, i: nat, s: Slot)
    requires |p.slots| == 512 && Channel(p) && i < 512
    requires p.seqs != [] && ReqId(p.seqs[0]) == i && s.tokens == []
    ensures Channel(Pool(p.slots[i := s], p.seqs[1..]))
  {
    forall j | 0 <= j < 512 && j != i && p.slots[j].tokens != [] ensures p.slots[j].tokens[0] in p.seqs[1..] {
      var k :| 0 <= k < |p.seqs| && p.seqs[k] == p.slots[j].tokens[0];
      assert k != 0;
      assert p.seqs[1..][k - 1] == p.seqs[k];
    }
  }

  lemma AfterSend(p: Pool, i: nat, s: Slot)
    requires |p.slots| == 512 && Channel(p) && i < 512
    requires p.slots[i].tokens == [] && |s.tokens| == 1 && ReqId(s.tokens[0]) == i
    ensures Channel(Pool(p.slots[i := s], p.seqs + s.tokens))
  {
    var seqs := p.seqs + s.tokens;
    assert seqs[|p.seqs|] == s.tokens[0];
    forall j | 0 <= j < 512 && j != i && p.slots[j].tokens != [] ensures p.slots[j].tokens[0] in seqs {
      var k :| 0 <= k < |p.seqs| && p.seqs[k] == p.slots[j].tokens[0];
      assert seqs[k] == p.seqs[k];
    }
  }

  lemma {:induction false} PoolGood(p: Pool, run: seq<(nat, Action)>)
    requires Slots(p) && Channel(p) && PoolCan(p, run)
    ensures Slots(PoolAfter(p, run)) && Channel(PoolAfter(p, run))
    decreases |run|
  {
    if run != [] {
      StepGood(p.slots[run[0].0], run[0].1);
      MoveSlots(p, run[0].0, run[0].1);
      MoveChannel(p, run[0].0, run[0].1);
      PoolGood(Move(p, run[0].0, run[0].1), run[1..]);
    }
  }

  // Every slot of the pool goes through a run of its own, so what is proved of the runs
  // of one slot holds of each of the 512.
  lemma {:induction false} SlotsRunAlone(p: Pool, run: seq<(nat, Action)>, i: nat)
    requires PoolCan(p, run) && i < |p.slots|
    ensures |PoolAfter(p, run).slots| == |p.slots|
    ensures CanRun(p.slots[i], Project(run, i))
    ensures PoolAfter(p, run).slots[i] == After(p.slots[i], Project(run, i))
    decreases |run|
  {
    if run != [] {
      SlotsRunAlone(Move(p, run[0].0, run[0].1), run[1..], i);
      if run[0].0 == i {
        assert Project(run, i)[1..] == Project(run[1..], i);
      } else {
        assert Project(run, i) == Project(run[1..], i);
      }
    }
  }

  lemma {:induction false} AtMost(ids: set<nat>, n: nat)
    requires forall i :: i in ids ==> i < n
    ensures |ids| <= n
  {
    if n > 0 {
      AtMost(ids - {n - 1}, n - 1);
      assert ids <= (ids - {n - 1}) + {n - 1};
      if n - 1 in ids { assert |ids| == |ids - {n - 1}| + 1; } else { assert ids == ids - {n - 1}; }
    } else {
      assert ids == {};
    }
  }

  function Ids(seqs: seq<nat>): set<nat> {
    if seqs == [] then {} else Ids(seqs[1..]) + {ReqId(seqs[0])}
  }

  lemma {:induction false} InIds(seqs: seq<nat>, id: nat)
    requires id in Ids(seqs)
    ensures exists k :: 0 <= k < |seqs| && ReqId(seqs[k]) == id
  {
    if id != ReqId(seqs[0]) {
      InIds(seqs[1..], id);
      var k :| 0 <= k < |seqs[1..]| && ReqId(seqs[1..][k]) == id;
      assert ReqId(seqs[k + 1]) == id;
    }
  }

  lemma {:induction false} IdsCount(seqs: seq<nat>)
    requires forall j, k :: 0 <= j < k < |seqs| ==> ReqId(seqs[j]) != ReqId(seqs[k])
    ensures |Ids(seqs)| == |seqs|
  {
    if seqs != [] {
      IdsCount(seqs[1..]);
      if ReqId(seqs[0]) in Ids(seqs[1..]) {
        InIds(seqs[1..], ReqId(seqs[0]));
        assert false;
      }
    }
  }

  // Never more numbers than slots, and one fewer for every slot that has its number out.
  lemma Room(p: Pool, i: nat)
    requires |p.slots| == 512 && Channel(p) && i < 512
    ensures |p.seqs| <= 512
    ensures p.slots[i].tokens == [] ==> |p.seqs| < 512
  {
    IdsCount(p.seqs);
    forall n | n in Ids(p.seqs) ensures n < 512 && p.slots[n].tokens != [] {
      InIds(p.seqs, n);
    }
    AtMost(Ids(p.seqs), 512);
    if p.slots[i].tokens == [] {
      AtMost(Ids(p.seqs) + {i}, 512);
    }
  }

  // The channel has room for every number that comes back: no send into it ever waits.
  lemma SendsNeverBlock(run: seq<(nat, Action)>, i: nat, a: Action)
    requires PoolCan(Start(), run) && Ready(PoolAfter(Start(), run), i, a)
    ensures PoolEnabled(PoolAfter(Start(), run), i, a)
  {
    StartSlots();
    StartChannel();
    PoolGood(Start(), run);
    var p := PoolAfter(Start(), run);
    Share(p.slots[i], a);
    Room(p, i);
  }

  // A number taken from the channel is the one its slot has out.
  lemma TakesTheSlotsNumber(run: seq<(nat, Action)>, i: nat, a: Action)
    requires PoolCan(Start(), run) && Ready(PoolAfter(Start(), run), i, a) && Takes(a)
    ensures PoolAfter(Start(), run).slots[i].tokens == [PoolAfter(Start(), run).seqs[0]]
  {
    StartSlots();
    StartChannel();
    PoolGood(Start(), run);
  }
}
