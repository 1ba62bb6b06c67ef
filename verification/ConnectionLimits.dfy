// Where reply matching ends: a reply that outlives a full cycle of numbers.

module ConnectionLimits {
  import opened Wrappers
  import opened SeqNums
  import opened ConnectionSlot
  import opened ConnectionInvariant
  import opened ConnectionTheorems
  import opened ConnectionRuns

  lemma {:induction false} Chain(s: Slot, run: seq<Action>, rest: seq<Action>)
    requires CanRun(s, run) && CanRun(After(s, run), rest)
    ensures CanRun(s, run + rest) && After(s, run + rest) == After(After(s, run), rest)
    decreases |run|
  {
    if run == [] {
      assert run + rest == rest;
    } else {
      Chain(Do(s, run[0]), run[1..], rest);
      assert (run + rest)[1..] == run[1..] + rest;
    }
  }

  lemma Then(s: Slot, run: seq<Action>, a: Action) returns (longer: seq<Action>)
    requires CanRun(s, run) && Enabled(After(s, run), a)
    ensures CanRun(s, longer) && After(s, longer) == Do(After(s, run), a)
  {
    var next := After(s, run);
    assert CanRun(Do(next, a), []);
    assert [a][1..] == [];
    Chain(s, run, [a]);
    longer := run + [a];
  }

  // ---- a reply one full cycle late ----

  // Synchronous calls 0..n-1 have used the slot, each giving up; nothing is going on.
  ghost predicate Quiet(s: Slot, idx: nat, n: nat) {
    && s.tokens == [SeqOf(idx, n)] && s.calls == map[] && s.reader.RIdle?
    && s.reg.repl.None? && !s.reg.isAsync && s.h.gen == n
    && (forall c :: c in s.h.used ==> c < n)
    && (n > 0 ==> Reply(SeqOf(idx, 0), 0) in s.h.sent)
  }

  // Call n has the number and is out of its loop, the rest as before.
  ghost predicate Leaving(s: Slot, idx: nat, n: nat, out: Outcome) {
    && s.tokens == [] && s.calls == map[n := SyncLeft(SeqOf(idx, n), out)] && s.reader.RIdle?
    && s.reg.repl.None? && !s.reg.isAsync && s.h.gen == n
    && (forall c :: c in s.h.used ==> c <= n)
    && Reply(SeqOf(idx, 0), 0) in s.h.sent
  }

  lemma CallSent(idx: nat, run: seq<Action>, c: nat) returns (longer: seq<Action>)
    requires CanRun(Init(idx), run) && Quiet(After(Init(idx), run), idx, c)
    ensures CanRun(Init(idx), longer)
    ensures var s := After(Init(idx), longer);
      && s.tokens == [] && s.calls == map[c := SyncWaiting(SeqOf(idx, c))] && s.reader.RIdle?
      && s.reg.seqNum == SeqOf(idx, c) && s.reg.repl.None? && !s.reg.isAsync && s.h.gen == c
      && (forall d :: d in s.h.used ==> d <= c)
      && Reply(SeqOf(idx, 0), 0) in s.h.sent
  {
    longer := Then(Init(idx), run, OfEntry(Take(c, false)));
    longer := Then(Init(idx), longer, OfSync(Store(c)));
    longer := Then(Init(idx), longer, OfSync(Send(c)));
  }

  lemma CallDone(idx: nat, run: seq<Action>, c: nat, out: Outcome) returns (longer: seq<Action>)
    requires CanRun(Init(idx), run) && Leaving(After(Init(idx), run), idx, c, out)
    ensures CanRun(Init(idx), longer) && Quiet(After(Init(idx), longer), idx, c + 1)
    ensures c in After(Init(idx), longer).h.done && After(Init(idx), longer).h.done[c] == out
  {
    longer := Then(Init(idx), run, OfSync(Clear(c)));
    longer := Then(Init(idx), longer, OfSync(Drain(c)));
    longer := Then(Init(idx), longer, OfSync(Return(c)));
  }

  lemma {:induction false} GiveUps(idx: nat, n: nat) returns (run: seq<Action>)
    ensures CanRun(Init(idx), run) && Quiet(After(Init(idx), run), idx, n)
  {
    if n == 0 {
      run := [];
    } else {
      run := GiveUps(idx, n - 1);
      run := CallSent(idx, run, n - 1);
      run := Then(Init(idx), run, OfSync(GiveUp(n - 1)));
      run := CallDone(idx, run, n - 1, Failed);
    }
  }

  // The reader takes a reply that was sent before and puts it into the waiting slot.
  lemma ReplyRead(idx: nat, run: seq<Action>, c: nat, r: Reply) returns (longer: seq<Action>)
    requires CanRun(Init(idx), run)
    requires var s := After(Init(idx), run);
      && s.tokens == [] && s.calls == map[c := SyncWaiting(r.rseq)] && s.reader.RIdle?
      && s.reg.seqNum == r.rseq && s.reg.repl.None? && !s.reg.isAsync && r in s.h.sent
    ensures CanRun(Init(idx), longer)
    ensures var s, t := After(Init(idx), run), After(Init(idx), longer);
      t == s.(reg := s.reg.(repl := Some(r)))
  {
    longer := Then(Init(idx), run, OfReader(RReceive(r)));
    longer := Then(Init(idx), longer, OfReader(RCompare));
    longer := Then(Init(idx), longer, OfReader(RLoadFlag));
    longer := Then(Init(idx), longer, OfReader(RDeliver));
  }

  // The window of ReplyMatching is needed as it stands: a reply to call 0 that arrives
  // exactly 1000000 uses of the slot later is returned by call 1000000 as its own.
  lemma ReplyOneCycleLateIsMisrouted(idx: nat) returns (run: seq<Action>)
    requires idx < 512
    ensures CanRun(Init(idx), run)
    ensures var h := After(Init(idx), run).h;
      1_000_000 in h.done && h.done[1_000_000].Got? && h.done[1_000_000].r.req == 0
  {
    var c := 1_000_000;
    var late := Reply(SeqOf(idx, 0), 0);
    SameNumber(idx, 0, idx, c);
    run := GiveUps(idx, c);
    run := CallSent(idx, run, c);
    run := ReplyRead(idx, run, c, late);
    run := Then(Init(idx), run, OfSync(Recv(c)));
    run := CallDone(idx, run, c, Got(late));
  }
}
