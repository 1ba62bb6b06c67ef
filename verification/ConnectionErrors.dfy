// What becomes of asynchronous calls on a request slot when the connection fails.

module ConnectionErrors {
  import opened ConnectionSlot
  import opened ConnectionInvariant
  import opened ConnectionTheorems
  import opened ConnectionRuns
  import opened ConnectionLimits

  // ---- which calls the sweep can still see ----

  predicate PastFlag(pc: CallPc) { pc.AsyncFlagged? || pc.AsyncStored? || pc.AsyncDrained? }

  // The sweep has yet to decide about the slot.
  predicate Undecided(sw: SweepPc) { sw.WIdle? || sw.WRaised? || sw.WAsync? || sw.WLocked? }

  // The calls that stored their flag had a number and return no result.
  ghost predicate Flagging(s: Slot) {
    && (forall c :: c in s.h.done ==> c in s.h.used && c !in s.calls && c !in s.h.flagged)
    && (forall c :: c in s.h.flagged ==> c in s.h.used)
    && (forall c :: c in s.h.flagged && c in s.calls ==> PastFlag(s.calls[c]) || s.calls[c].AsyncSending?)
    && (Undecided(s.sweep) ==> forall c :: c in s.h.flagged ==> s.h.flagged[c])
  }

  // Call c stored its flag, and if it did so in time the sweep has yet to decide.
  predicate Seen(s: Slot, c: nat) {
    c in s.h.flagged && (s.h.flagged[c] ==> Undecided(s.sweep))
  }

  predicate InSweep(s: Slot, c: nat) { c in s.h.flagged && s.h.flagged[c] }

  ghost predicate Placed(s: Slot) {
    && (s.owner.OfCall? && s.owner.c in s.calls && PastFlag(s.calls[s.owner.c]) ==> Seen(s, s.owner.c))
    && (s.owner.Registered? ==> Seen(s, s.owner.c))
    && (s.owner.AtReader? || s.owner.AtTicker? ==> s.owner.c in s.h.took)
    && (s.owner.AtSweep? ==> InSweep(s, s.owner.c))
    && (s.reader.RReturned? ==> s.reader.c in s.h.took)
    && (s.ticker.TReturned? ==> s.ticker.c in s.h.took)
    && (s.sweep.WReturned? ==> InSweep(s, s.sweep.c))
  }

  ghost predicate Taking(s: Slot) {
    forall c :: c in s.h.took ==> c in s.h.returned || ((s.owner.AtReader? || s.owner.AtTicker?) && s.owner.c == c)
  }

  ghost predicate FiredFor(s: Slot) {
    forall i :: 0 <= i < |s.h.fired| && s.h.fired[i].0 in s.h.flagged ==>
      s.h.fired[i].0 in s.h.took || s.h.flagged[s.h.fired[i].0]
  }

  ghost predicate Noted(s: Slot) {
    Flagging(s) && Placed(s) && Taking(s) && FiredFor(s)
  }

  // What the steps need of the slot's other invariants.
  ghost predicate Base(s: Slot) {
    Tokens(s) && Locks(s) && Shown(s) && Callers(s) && Pending(s)
  }

  lemma EntryFlagging(s: Slot, a: EntryAction)
    requires Base(s) && Flagging(s) && EnabledEntry(s, a)
    ensures Flagging(DoEntry(s, a))
  {
  }

  lemma EntryPlaced(s: Slot, a: EntryAction)
    requires Tokens(s) && Locks(s) && Placed(s) && EnabledEntry(s, a)
    ensures Placed(DoEntry(s, a))
  {
  }

  lemma EntryFiredFor(s: Slot, a: EntryAction)
    requires Base(s) && Noted(s) && EnabledEntry(s, a)
    ensures Taking(DoEntry(s, a)) && FiredFor(DoEntry(s, a))
  {
  }

  lemma SyncFlagging(s: Slot, a: SyncAction)
    requires Base(s) && Flagging(s) && EnabledSync(s, a)
    ensures Flagging(DoSync(s, a))
  {
  }

  lemma SyncPlaced(s: Slot, a: SyncAction)
    requires Tokens(s) && Locks(s) && Placed(s) && EnabledSync(s, a)
    ensures Placed(DoSync(s, a))
  {
  }

  lemma SyncFiredFor(s: Slot, a: SyncAction)
    requires Base(s) && Noted(s) && EnabledSync(s, a)
    ensures Taking(DoSync(s, a)) && FiredFor(DoSync(s, a))
  {
  }

  lemma AsyncFlagging(s: Slot, a: AsyncAction)
    requires Base(s) && Flagging(s) && EnabledAsync(s, a)
    ensures Flagging(DoAsync(s, a))
  {
  }

  lemma AsyncPlaced(s: Slot, a: AsyncAction)
    requires Tokens(s) && Locks(s) && Shown(s) && Flagging(s) && Placed(s) && EnabledAsync(s, a)
    ensures Placed(DoAsync(s, a))
  {
  }

  lemma AsyncFiredFor(s: Slot, a: AsyncAction)
    requires Base(s) && Noted(s) && EnabledAsync(s, a)
    ensures Taking(DoAsync(s, a)) && FiredFor(DoAsync(s, a))
  {
  }

  lemma ReaderFlagging(s: Slot, a: ReaderAction)
    requires Base(s) && Flagging(s) && EnabledReader(s, a)
    ensures Flagging(DoReader(s, a))
  {
  }

  lemma ReaderPlaced(s: Slot, a: ReaderAction)
    requires Tokens(s) && Locks(s) && Placed(s) && EnabledReader(s, a)
    ensures Placed(DoReader(s, a))
  {
  }

  lemma ReaderFiredFor(s: Slot, a: ReaderAction)
    requires Base(s) && Noted(s) && EnabledReader(s, a)
    ensures Taking(DoReader(s, a)) && FiredFor(DoReader(s, a))
  {
  }

  lemma TickerFlagging(s: Slot, a: TickerAction)
    requires Base(s) && Flagging(s) && EnabledTicker(s, a)
    ensures Flagging(DoTicker(s, a))
  {
  }

  lemma TickerPlaced(s: Slot, a: TickerAction)
    requires Tokens(s) && Locks(s) && Placed(s) && EnabledTicker(s, a)
    ensures Placed(DoTicker(s, a))
  {
  }

  lemma TickerFiredFor(s: Slot, a: TickerAction)
    requires Base(s) && Noted(s) && EnabledTicker(s, a)
    ensures Taking(DoTicker(s, a)) && FiredFor(DoTicker(s, a))
  {
  }

  lemma SweepFlagging(s: Slot, a: SweepAction)
    requires Base(s) && Flagging(s) && EnabledSweep(s, a)
    ensures Flagging(DoSweep(s, a))
  {
  }

  lemma SweepPlaced(s: Slot, a: SweepAction)
    requires Tokens(s) && Locks(s) && Shown(s) && Flagging(s) && Placed(s) && EnabledSweep(s, a)
    ensures Placed(DoSweep(s, a))
  {
  }

  lemma SweepFiredFor(s: Slot, a: SweepAction)
    requires Base(s) && Noted(s) && EnabledSweep(s, a)
    ensures Taking(DoSweep(s, a)) && FiredFor(DoSweep(s, a))
  {
  }

  lemma StepNoted(s: Slot, a: Action)
    requires Good(s) && Noted(s) && Enabled(s, a)
    ensures Noted(Do(s, a))
  {
    match a
    case OfEntry(x) => EntryFlagging(s, x); EntryPlaced(s, x); EntryFiredFor(s, x);
    case OfSync(x) => SyncFlagging(s, x); SyncPlaced(s, x); SyncFiredFor(s, x);
    case OfAsync(x) => AsyncFlagging(s, x); AsyncPlaced(s, x); AsyncFiredFor(s, x);
    case OfReader(x) => ReaderFlagging(s, x); ReaderPlaced(s, x); ReaderFiredFor(s, x);
    case OfTicker(x) => TickerFlagging(s, x); TickerPlaced(s, x); TickerFiredFor(s, x);
    case OfSweep(x) => SweepFlagging(s, x); SweepPlaced(s, x); SweepFiredFor(s, x);
  }

  lemma {:induction false} RunNoted(s: Slot, run: seq<Action>)
    requires Good(s) && Noted(s) && CanRun(s, run)
    ensures Good(After(s, run)) && Noted(After(s, run))
    decreases |run|
  {
    if run != [] {
      StepGood(s, run[0]);
      StepNoted(s, run[0]);
      RunNoted(Do(s, run[0]), run[1..]);
    }
  }

  // ---- who is answered after an error ----

  // The connection is dead: the reader and the ticker have ended, the sweep is through.
  predicate Dead(s: Slot) { s.reader.RDone? && s.ticker.TStopped? && s.sweep.WDone? }

  // Call c is registered on a slot nobody will look at again.
  predicate Forgotten(s: Slot, c: nat) {
    s.owner == Registered(c) && s.sweep.WDone? && s.reader.RDone? && (s.ticker.TIdle? || s.ticker.TStopped?)
  }

  ghost predicate Stranded(s: Slot, c: nat) { Good(s) && Forgotten(s, c) }

  lemma ForgottenStep(s: Slot, c: nat, a: Action)
    requires Tokens(s) && Forgotten(s, c) && Enabled(s, a)
    ensures Forgotten(Do(s, a), c)
  {
    match a
    case OfEntry(x) =>
    case OfSync(x) => assert false;
    case OfAsync(x) =>
    case OfReader(x) =>
    case OfTicker(x) =>
    case OfSweep(x) =>
  }

  // Its completion is never called, whatever happens afterwards, and the slot's number
  // is gone with it.
  lemma {:induction false} StrandedForEver(s: Slot, c: nat, run: seq<Action>)
    requires Stranded(s, c) && CanRun(s, run)
    ensures NotFired(After(s, run), c) && After(s, run).tokens == []
    decreases |run|
  {
    if run != [] {
      StepGood(s, run[0]);
      ForgottenStep(s, c, run[0]);
      StrandedForEver(Do(s, run[0]), c, run[1..]);
    }
  }

  // Call c stored its flag too late for the sweep, and nobody else took it.
  predicate Missed(s: Slot, c: nat) {
    c in s.h.flagged && !s.h.flagged[c] && c !in s.h.took
  }

  lemma DeadAnswers(s: Slot, c: nat)
    requires Good(s) && Noted(s) && Dead(s) && c in s.h.used && c !in s.calls
    ensures Answered(s, c) <==> !Missed(s, c)
    ensures Answered(s, c) || Stranded(s, c)
  {
  }

  // The history of c is closed.
  predicate Closed(s: Slot, c: nat, missed: bool) {
    Dead(s) && c !in s.calls && c in s.h.used && Missed(s, c) == missed
  }

  lemma ClosedStep(s: Slot, c: nat, missed: bool, a: Action)
    requires Closed(s, c, missed) && Enabled(s, a)
    ensures Closed(Do(s, a), c, missed)
  {
    match a
    case OfEntry(x) => ClosedEntry(s, c, missed, x);
    case OfSync(x) =>
    case OfAsync(x) =>
  }

  lemma ClosedEntry(s: Slot, c: nat, missed: bool, a: EntryAction)
    requires Closed(s, c, missed) && EnabledEntry(s, a)
    ensures Closed(DoEntry(s, a), c, missed)
  {
  }

  lemma {:induction false} StaysClosed(s: Slot, c: nat, missed: bool, run: seq<Action>)
    requires Closed(s, c, missed) && CanRun(s, run)
    ensures Closed(After(s, run), c, missed)
    decreases |run|
  {
    if run != [] {
      ClosedStep(s, c, missed, run[0]);
      StaysClosed(Do(s, run[0]), c, missed, run[1..]);
    }
  }

  // Once the connection is dead, a call that came to the slot and has gone its way has
  // been answered, or ever will be, unless it is an asynchronous one that stored its flag
  // too late for the sweep and was taken by neither the reader nor the ticker. A deadline
  // changes nothing.
  lemma AnsweredExactly(idx: nat, run: seq<Action>, later: seq<Action>, c: nat)
    requires idx < 512 && CanRun(Init(idx), run) && CanRun(After(Init(idx), run), later)
    requires var s := After(Init(idx), run); Dead(s) && c in s.h.used && c !in s.calls
    ensures var s := After(Init(idx), run);
      Answered(After(s, later), c) <==> !Missed(s, c)
  {
    InitInv(idx);
    RunNoted(Init(idx), run);
    var s := After(Init(idx), run);
    RunNoted(s, later);
    StaysClosed(s, c, Missed(s, c), later);
    DeadAnswers(After(s, later), c);
  }

  // It happens whatever the deadline: the call looks for an error before it is raised,
  // and stores its flag after the sweep has loaded it.
  lemma AsyncCallCanBeStranded(idx: nat, d: nat) returns (run: seq<Action>)
    requires idx < 512
    ensures CanRun(Init(idx), run)
    ensures Stranded(After(Init(idx), run), 0) && Dead(After(Init(idx), run))
    ensures After(Init(idx), run).reg.deadline == d
  {
    run := Then(Init(idx), [], OfEntry(Check(0)));
    run := Then(Init(idx), run, OfEntry(Take(0, true)));
    run := Then(Init(idx), run, OfSweep(WRaise));
    run := Then(Init(idx), run, OfSweep(WLoadFlag));
    run := Registering(idx, run, d);
    run := Then(Init(idx), run, OfReader(RStop));
    run := Then(Init(idx), run, OfTicker(TTick));
    Reached(idx, run);
  }

  lemma Registering(idx: nat, run: seq<Action>, d: nat) returns (longer: seq<Action>)
    requires CanRun(Init(idx), run)
    requires var s := After(Init(idx), run);
      s.calls == map[0 := Taken(idx, true)] && s.reg.lock.Free? && s.sweep.WDone? && s.reader.RIdle? && s.ticker.TIdle?
    ensures CanRun(Init(idx), longer)
    ensures var t := After(Init(idx), longer);
      && t.owner == Registered(0) && t.reg.deadline == d
      && t.sweep.WDone? && t.reader.RIdle? && t.ticker.TIdle?
  {
    longer := Then(Init(idx), run, OfAsync(ALock(0)));
    longer := Then(Init(idx), longer, OfAsync(ASetDeadline(0, d)));
    longer := Then(Init(idx), longer, OfAsync(AFlag(0)));
    longer := Then(Init(idx), longer, OfAsync(AStore(0)));
    longer := Then(Init(idx), longer, OfAsync(ADrain(0)));
    longer := Then(Init(idx), longer, OfAsync(AUnlock(0)));
    longer := Then(Init(idx), longer, OfAsync(ASend(0)));
  }
}
