// Reply matching, reader progress and completion accounting on a request slot.

module ConnectionTheorems {
  import opened Wrappers
  import opened SeqNums
  import opened ConnectionSlot
  import opened ConnectionInvariant

  // ---- replies reach the calls they answer ----

  // Call c was handed reply r: they used the slot a multiple of 1000000 generations
  // apart; under `exact`, r answers c.
  ghost predicate Match(s: Slot, c: nat, r: Reply, exact: bool) {
    && c in s.h.genOf && r.req in s.h.genOf
    && s.h.genOf[c] % 1_000_000 == s.h.genOf[r.req] % 1_000_000
    && (exact ==> r.req == c)
  }

  // What calls in flight hold.
  ghost predicate InFlight(s: Slot, exact: bool) {
    && (forall c :: c in s.calls && SyncHasReply(s.calls[c]) ==> Match(s, c, s.calls[c].out.r, exact))
    && (ReaderHolds(s.reader) || s.reader.RReturned? ==> Match(s, s.reader.c, s.reader.r, exact))
  }

  // What finished calls got, by return value or through their completion.
  ghost predicate Delivered(s: Slot, exact: bool) {
    && (forall c :: c in s.h.done && s.h.done[c].Got? ==> Match(s, c, s.h.done[c].r, exact))
    && (forall i :: 0 <= i < |s.h.fired| && s.h.fired[i].1.Some? ==> Match(s, s.h.fired[i].0, s.h.fired[i].1.value, exact))
  }

  // No reply still in the client's hands is a full cycle of numbers old.
  ghost predicate Recent(s: Slot, r: Reply) {
    r.req in s.h.genOf ==> s.h.gen < s.h.genOf[r.req] + 1_000_000
  }

  ghost predicate Window(s: Slot) {
    && (s.reg.repl.Some? ==> Recent(s, s.reg.repl.value))
    && (ReaderHasFrame(s.reader) ==> Recent(s, s.reader.r))
  }

  // The number comparison alone: equal numbers mean congruent generations, and the
  // very same call while the window holds.
  lemma SameNumberMatches(s: Slot, c: nat, r: Reply)
    requires Inv(s) && r in s.h.sent && c in s.h.genOf && s.h.genOf[c] == s.h.gen && r.rseq == Cur(s)
    ensures Match(s, c, r, false)
    ensures Recent(s, r) ==> Match(s, c, r, true)
  {
    SameNumber(s.idx, s.h.gen, s.idx, s.h.genOf[r.req]);
    if Recent(s, r) {
      CloseGenerations(s.h.genOf[r.req], s.h.gen);
      assert s.h.userOf[s.h.genOf[c]] == c && s.h.userOf[s.h.genOf[r.req]] == r.req;
    }
  }

  lemma EntryInFlight(s: Slot, a: EntryAction, exact: bool)
    requires Inv(s) && InFlight(s, exact) && (exact ==> Window(s)) && EnabledEntry(s, a)
    ensures InFlight(DoEntry(s, a), exact)
  {
  }

  lemma SyncInFlight(s: Slot, a: SyncAction, exact: bool)
    requires Inv(s) && InFlight(s, exact) && (exact ==> Window(s)) && EnabledSync(s, a)
    ensures InFlight(DoSync(s, a), exact)
  {
    if a.Recv? && s.reg.repl.value.rseq == s.calls[a.c].num {
      SameNumberMatches(s, a.c, s.reg.repl.value);
    }
  }

  lemma EntryDelivered(s: Slot, a: EntryAction, exact: bool)
    requires Inv(s) && InFlight(s, exact) && Delivered(s, exact) && EnabledEntry(s, a)
    ensures Delivered(DoEntry(s, a), exact)
  {
  }

  lemma SyncDelivered(s: Slot, a: SyncAction, exact: bool)
    requires Inv(s) && InFlight(s, exact) && Delivered(s, exact) && EnabledSync(s, a)
    ensures Delivered(DoSync(s, a), exact)
  {
  }

  lemma AsyncInFlight(s: Slot, a: AsyncAction, exact: bool)
    requires Inv(s) && InFlight(s, exact) && EnabledAsync(s, a)
    ensures InFlight(DoAsync(s, a), exact)
  {
  }

  lemma AsyncDelivered(s: Slot, a: AsyncAction, exact: bool)
    requires Inv(s) && InFlight(s, exact) && Delivered(s, exact) && EnabledAsync(s, a)
    ensures Delivered(DoAsync(s, a), exact)
  {
  }

  lemma ReaderInFlight(s: Slot, a: ReaderAction, exact: bool)
    requires Inv(s) && InFlight(s, exact) && (exact ==> Window(s)) && EnabledReader(s, a)
    ensures InFlight(DoReader(s, a), exact)
  {
    if a.RDecide? && s.reg.cmpl.Some? && s.reg.seqNum == s.reader.r.rseq {
      SameNumberMatches(s, s.reg.cmpl.value, s.reader.r);
    }
  }

  lemma ReaderDelivered(s: Slot, a: ReaderAction, exact: bool)
    requires Inv(s) && InFlight(s, exact) && Delivered(s, exact) && EnabledReader(s, a)
    ensures Delivered(DoReader(s, a), exact)
  {
  }

  lemma TickerInFlight(s: Slot, a: TickerAction, exact: bool)
    requires Inv(s) && InFlight(s, exact) && EnabledTicker(s, a)
    ensures InFlight(DoTicker(s, a), exact)
  {
  }

  lemma TickerDelivered(s: Slot, a: TickerAction, exact: bool)
    requires Inv(s) && InFlight(s, exact) && Delivered(s, exact) && EnabledTicker(s, a)
    ensures Delivered(DoTicker(s, a), exact)
  {
  }

  lemma SweepInFlight(s: Slot, a: SweepAction, exact: bool)
    requires Inv(s) && InFlight(s, exact) && EnabledSweep(s, a)
    ensures InFlight(DoSweep(s, a), exact)
  {
  }

  lemma SweepDelivered(s: Slot, a: SweepAction, exact: bool)
    requires Inv(s) && InFlight(s, exact) && Delivered(s, exact) && EnabledSweep(s, a)
    ensures Delivered(DoSweep(s, a), exact)
  {
  }

  // ---- the reader never waits for a drained slot ----

  // The holder of the number has emptied `repl` for the last time.
  predicate PastDrain(s: Slot) {
    || (s.owner.OfCall? && s.owner.c in s.calls && s.calls[s.owner.c].SyncDrained?)
    || (s.owner.AtTicker? && s.ticker.TDrained?)
  }

  // The holder got past the flag, so a reader that saw no flag is putting into `repl`.
  predicate Unflagged(s: Slot) {
    || (s.owner.OfCall? && s.owner.c in s.calls && !InLock(s.calls[s.owner.c]))
    || (s.owner.AtTicker? && (s.ticker.TFlagged? || s.ticker.TUnlocked? || s.ticker.TDrained?))
    || (s.owner.AtSweep? && (s.sweep.WFlagged? || s.sweep.WUnlocked?))
  }

  ghost predicate Progress(s: Slot) {
    ReaderCompared(s.reader) ==>
      && s.reader.gen <= s.h.gen
      && (s.reader.gen == s.h.gen ==> !NumUnset(s))
      && (s.reader.gen == s.h.gen && s.reader.RPut? ==> Unflagged(s))
      && (!s.h.swept && (s.reader.gen < s.h.gen || PastDrain(s)) ==> s.reg.repl.None?)
  }

  lemma EntryProgress(s: Slot, a: EntryAction)
    requires Inv(s) && Progress(s) && EnabledEntry(s, a)
    ensures Progress(DoEntry(s, a))
  {
  }

  lemma SyncProgress(s: Slot, a: SyncAction)
    requires Inv(s) && Progress(s) && EnabledSync(s, a)
    ensures Progress(DoSync(s, a))
  {
  }

  lemma AsyncProgress(s: Slot, a: AsyncAction)
    requires Inv(s) && Progress(s) && EnabledAsync(s, a)
    ensures Progress(DoAsync(s, a))
  {
  }

  lemma ReaderProgress(s: Slot, a: ReaderAction)
    requires Inv(s) && Progress(s) && EnabledReader(s, a)
    ensures Progress(DoReader(s, a))
  {
    if a.RCompare? {
      ReaderCompares(s);
    } else if a.RReceive? || a.RLoadFlag? || a.RLock? || a.RDecide? {
      ReaderGoesOn(s, a);
    }
  }

  lemma ReaderCompares(s: Slot)
    requires Inv(s) && EnabledReader(s, RCompare)
    ensures Progress(DoReader(s, RCompare))
  {
    ClosedForm(s.idx, s.h.genOf[s.reader.r.req]);
  }

  lemma ReaderGoesOn(s: Slot, a: ReaderAction)
    requires Tokens(s) && Locks(s) && Shown(s) && Progress(s) && EnabledReader(s, a)
    requires a.RReceive? || a.RLoadFlag? || a.RLock? || a.RDecide?
    ensures Progress(DoReader(s, a))
  {
  }

  lemma TickerProgress(s: Slot, a: TickerAction)
    requires Inv(s) && Progress(s) && EnabledTicker(s, a)
    ensures Progress(DoTicker(s, a))
  {
  }

  lemma SweepProgress(s: Slot, a: SweepAction)
    requires Inv(s) && Progress(s) && EnabledSweep(s, a)
    ensures Progress(DoSweep(s, a))
  {
  }

  // ---- completions fire once ----

  ghost predicate NotFired(s: Slot, c: nat) {
    forall i :: 0 <= i < |s.h.fired| ==> s.h.fired[i].0 != c
  }

  // A completion whose number is already back but which is still to be called.
  ghost predicate ToFire(s: Slot, c: nat) {
    c in s.h.returned && c in s.h.used && NotFired(s, c)
  }

  ghost predicate Log(s: Slot) {
    && (forall i :: 0 <= i < |s.h.fired| ==>
          s.h.fired[i].0 in s.h.used && (s.h.fired[i].0 in s.h.genOf ==> s.h.fired[i].0 in s.h.returned))
    && (forall i, j :: 0 <= i < j < |s.h.fired| ==> s.h.fired[i].0 != s.h.fired[j].0)
  }

  ghost predicate Pending(s: Slot) {
    && s.h.returned <= s.h.used
    && (!s.owner.InQueue? ==> s.owner.c in s.h.used && s.owner.c !in s.h.returned && NotFired(s, s.owner.c))
    && (s.reader.RReturned? ==> ToFire(s, s.reader.c))
    && (s.ticker.TReturned? ==> ToFire(s, s.ticker.c))
    && (s.sweep.WReturned? ==> ToFire(s, s.sweep.c))
    && (s.reader.RReturned? && s.ticker.TReturned? ==> s.reader.c != s.ticker.c)
    && (s.reader.RReturned? && s.sweep.WReturned? ==> s.reader.c != s.sweep.c)
    && (s.ticker.TReturned? && s.sweep.WReturned? ==> s.ticker.c != s.sweep.c)
  }

  lemma EntryLog(s: Slot, a: EntryAction)
    requires Tokens(s) && Users(s) && Callers(s) && Log(s) && Pending(s) && EnabledEntry(s, a)
    ensures Log(DoEntry(s, a))
  {
  }

  lemma SyncLog(s: Slot, a: SyncAction)
    requires Tokens(s) && Users(s) && Callers(s) && Log(s) && Pending(s) && EnabledSync(s, a)
    ensures Log(DoSync(s, a))
  {
  }

  lemma EntryPending(s: Slot, a: EntryAction)
    requires Tokens(s) && Locks(s) && Users(s) && Callers(s) && Log(s) && Pending(s) && EnabledEntry(s, a)
    ensures Pending(DoEntry(s, a))
  {
  }

  lemma SyncPending(s: Slot, a: SyncAction)
    requires Tokens(s) && Locks(s) && Users(s) && Callers(s) && Log(s) && Pending(s) && EnabledSync(s, a)
    ensures Pending(DoSync(s, a))
  {
  }

  lemma AsyncLog(s: Slot, a: AsyncAction)
    requires Tokens(s) && Users(s) && Callers(s) && Log(s) && Pending(s) && EnabledAsync(s, a)
    ensures Log(DoAsync(s, a))
  {
  }

  lemma AsyncPending(s: Slot, a: AsyncAction)
    requires Tokens(s) && Locks(s) && Users(s) && Callers(s) && Log(s) && Pending(s) && EnabledAsync(s, a)
    ensures Pending(DoAsync(s, a))
  {
  }

  lemma ReaderLog(s: Slot, a: ReaderAction)
    requires Tokens(s) && Users(s) && Callers(s) && Log(s) && Pending(s) && EnabledReader(s, a)
    ensures Log(DoReader(s, a))
  {
  }

  lemma ReaderPending(s: Slot, a: ReaderAction)
    requires Tokens(s) && Locks(s) && Users(s) && Callers(s) && Log(s) && Pending(s) && EnabledReader(s, a)
    ensures Pending(DoReader(s, a))
  {
  }

  lemma TickerLog(s: Slot, a: TickerAction)
    requires Tokens(s) && Users(s) && Callers(s) && Log(s) && Pending(s) && EnabledTicker(s, a)
    ensures Log(DoTicker(s, a))
  {
  }

  lemma TickerPending(s: Slot, a: TickerAction)
    requires Tokens(s) && Locks(s) && Users(s) && Callers(s) && Log(s) && Pending(s) && EnabledTicker(s, a)
    ensures Pending(DoTicker(s, a))
  {
  }

  lemma SweepLog(s: Slot, a: SweepAction)
    requires Tokens(s) && Users(s) && Callers(s) && Log(s) && Pending(s) && EnabledSweep(s, a)
    ensures Log(DoSweep(s, a))
  {
  }

  lemma SweepPending(s: Slot, a: SweepAction)
    requires Tokens(s) && Locks(s) && Users(s) && Callers(s) && Log(s) && Pending(s) && EnabledSweep(s, a)
    ensures Pending(DoSweep(s, a))
  {
  }

  // The completion of c is the next thing the reader, the ticker or the sweep calls.
  predicate Firing(s: Slot, c: nat) {
    || (s.reader.RReturned? && s.reader.c == c)
    || (s.ticker.TReturned? && s.ticker.c == c)
    || (s.sweep.WReturned? && s.sweep.c == c)
  }

  ghost predicate Answered(s: Slot, c: nat) {
    c in s.h.done || !NotFired(s, c)
  }

  // No call is forgotten.
  ghost predicate Settled(s: Slot) {
    forall c :: c in s.h.used ==> (!s.owner.InQueue? && s.owner.c == c) || Firing(s, c) || Answered(s, c)
  }

  lemma FiredStay(s: Slot, s': Slot)
    requires s.h.fired <= s'.h.fired
    requires forall c :: c in s.h.done ==> c in s'.h.done
    ensures forall c :: Answered(s, c) ==> Answered(s', c)
  {
    forall c | !NotFired(s, c) ensures !NotFired(s', c) {
      var i :| 0 <= i < |s.h.fired| && s.h.fired[i].0 == c;
      assert s'.h.fired[i].0 == c;
    }
  }

  lemma FiredOne(s: Slot, s': Slot, c: nat)
    requires |s'.h.fired| > |s.h.fired| && s.h.fired <= s'.h.fired && s'.h.fired[|s.h.fired|].0 == c && s'.h.done == s.h.done
    ensures Answered(s', c) && (forall d :: Answered(s, d) ==> Answered(s', d))
  {
    FiredStay(s, s');
  }

  lemma FiredSame(s: Slot, s': Slot)
    requires s'.h.fired == s.h.fired && s'.h.done == s.h.done
    ensures forall d :: Answered(s, d) <==> Answered(s', d)
  {
  }

  lemma EntrySettled(s: Slot, a: EntryAction)
    requires Tokens(s) && Locks(s) && Settled(s) && EnabledEntry(s, a)
    ensures Settled(DoEntry(s, a))
  {
    FiredStay(s, DoEntry(s, a));
    assert |DoEntry(s, a).h.fired| > |s.h.fired| ==> !NotFired(DoEntry(s, a), DoEntry(s, a).h.fired[|s.h.fired|].0);
  }

  lemma SyncSettled(s: Slot, a: SyncAction)
    requires Tokens(s) && Locks(s) && Settled(s) && EnabledSync(s, a)
    ensures Settled(DoSync(s, a))
  {
    FiredStay(s, DoSync(s, a));
  }

  lemma AsyncSettled(s: Slot, a: AsyncAction)
    requires Tokens(s) && Locks(s) && Settled(s) && EnabledAsync(s, a)
    ensures Settled(DoAsync(s, a))
  {
    FiredStay(s, DoAsync(s, a));
  }

  lemma ReaderSettled(s: Slot, a: ReaderAction)
    requires Tokens(s) && Locks(s) && Settled(s) && EnabledReader(s, a)
    ensures Settled(DoReader(s, a))
  {
    if a.RFire? {
      FiredOne(s, DoReader(s, a), s.reader.c);
    } else {
      FiredSame(s, DoReader(s, a));
    }
  }

  lemma TickerSettled(s: Slot, a: TickerAction)
    requires Tokens(s) && Locks(s) && Settled(s) && EnabledTicker(s, a)
    ensures Settled(DoTicker(s, a))
  {
    if a.TFire? {
      FiredOne(s, DoTicker(s, a), s.ticker.c);
    } else {
      FiredSame(s, DoTicker(s, a));
    }
  }

  lemma SweepSettled(s: Slot, a: SweepAction)
    requires Tokens(s) && Locks(s) && Settled(s) && EnabledSweep(s, a)
    ensures Settled(DoSweep(s, a))
  {
    if a.WFire? {
      FiredOne(s, DoSweep(s, a), s.sweep.c);
    } else {
      FiredSame(s, DoSweep(s, a));
    }
  }
}
