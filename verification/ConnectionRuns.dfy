// Whole runs of a request slot, and of the 512 slots over the shared number channel.

module ConnectionRuns {
  import opened Wrappers
  import opened SeqNums
  import opened ConnectionSlot
  import opened ConnectionInvariant
  import opened ConnectionTheorems

  predicate CanRun(s: Slot, run: seq<Action>)
    decreases |run|
  {
    run == [] || (Enabled(s, run[0]) && CanRun(Do(s, run[0]), run[1..]))
  }

  function After(s: Slot, run: seq<Action>): Slot
    requires CanRun(s, run)
    decreases |run|
  {
    if run == [] then s else After(Do(s, run[0]), run[1..])
  }

  // ---- what holds in every reachable state ----

  ghost predicate Good(s: Slot) {
    Inv(s) && InFlight(s, false) && Delivered(s, false) && Progress(s) && Log(s) && Pending(s) && Settled(s)
  }

  lemma StepInv(s: Slot, a: Action)
    requires Inv(s) && Enabled(s, a)
    ensures Inv(Do(s, a))
  {
    match a
    case OfEntry(x) =>
      EntryKeepsTokens(s, x); EntryKeepsLocks(s, x); EntryKeepsShown(s, x);
      EntryKeepsUsers(s, x); EntryKeepsCallers(s, x); EntryKeepsReplies(s, x);
    case OfSync(x) =>
      SyncKeepsTokens(s, x); SyncKeepsLocks(s, x); SyncKeepsShown(s, x);
      SyncKeepsUsers(s, x); SyncKeepsCallers(s, x); SyncKeepsReplies(s, x);
    case OfAsync(x) =>
      AsyncKeepsTokens(s, x); AsyncKeepsLocks(s, x); AsyncKeepsShown(s, x);
      AsyncKeepsUsers(s, x); AsyncKeepsCallers(s, x); AsyncKeepsReplies(s, x);
    case OfReader(x) =>
      ReaderKeepsTokens(s, x); ReaderKeepsLocks(s, x); ReaderKeepsShown(s, x);
      ReaderKeepsUsers(s, x); ReaderKeepsCallers(s, x); ReaderKeepsReplies(s, x);
    case OfTicker(x) =>
      TickerKeepsTokens(s, x); TickerKeepsLocks(s, x); TickerKeepsShown(s, x);
      TickerKeepsUsers(s, x); TickerKeepsCallers(s, x); TickerKeepsReplies(s, x);
    case OfSweep(x) =>
      SweepKeepsTokens(s, x); SweepKeepsLocks(s, x); SweepKeepsShown(s, x);
      SweepKeepsUsers(s, x); SweepKeepsCallers(s, x); SweepKeepsReplies(s, x);
  }

  lemma StepMatches(s: Slot, a: Action, exact: bool)
    requires Inv(s) && InFlight(s, exact) && Delivered(s, exact) && (exact ==> Window(s)) && Enabled(s, a)
    ensures InFlight(Do(s, a), exact) && Delivered(Do(s, a), exact)
  {
    match a
    case OfEntry(x) => EntryInFlight(s, x, exact); EntryDelivered(s, x, exact);
    case OfSync(x) => SyncInFlight(s, x, exact); SyncDelivered(s, x, exact);
    case OfAsync(x) => AsyncInFlight(s, x, exact); AsyncDelivered(s, x, exact);
    case OfReader(x) => ReaderInFlight(s, x, exact); ReaderDelivered(s, x, exact);
    case OfTicker(x) => TickerInFlight(s, x, exact); TickerDelivered(s, x, exact);
    case OfSweep(x) => SweepInFlight(s, x, exact); SweepDelivered(s, x, exact);
  }

  lemma StepGood(s: Slot, a: Action)
    requires Good(s) && Enabled(s, a)
    ensures Good(Do(s, a))
  {
    StepInv(s, a);
    StepMatches(s, a, false);
    match a
    case OfEntry(x) => EntryProgress(s, x); EntryLog(s, x); EntryPending(s, x); EntrySettled(s, x);
    case OfSync(x) => SyncProgress(s, x); SyncLog(s, x); SyncPending(s, x); SyncSettled(s, x);
    case OfAsync(x) => AsyncProgress(s, x); AsyncLog(s, x); AsyncPending(s, x); AsyncSettled(s, x);
    case OfReader(x) => ReaderProgress(s, x); ReaderLog(s, x); ReaderPending(s, x); ReaderSettled(s, x);
    case OfTicker(x) => TickerProgress(s, x); TickerLog(s, x); TickerPending(s, x); TickerSettled(s, x);
    case OfSweep(x) => SweepProgress(s, x); SweepLog(s, x); SweepPending(s, x); SweepSettled(s, x);
  }

  lemma {:induction false} RunGood(s: Slot, run: seq<Action>)
    requires Good(s) && CanRun(s, run)
    ensures Good(After(s, run))
    decreases |run|
  {
    if run != [] {
      StepGood(s, run[0]);
      RunGood(Do(s, run[0]), run[1..]);
    }
  }

  lemma Reached(idx: nat, run: seq<Action>)
    requires idx < 512 && CanRun(Init(idx), run)
    ensures Good(After(Init(idx), run))
  {
    InitInv(idx);
    RunGood(Init(idx), run);
  }

  // ---- reply matching ----

  // Every state of the run keeps to the window.
  ghost predicate InWindow(s: Slot, run: seq<Action>)
    requires CanRun(s, run)
    decreases |run|
  {
    Window(s) && (run != [] ==> InWindow(Do(s, run[0]), run[1..]))
  }

  lemma {:induction false} RunMatches(s: Slot, run: seq<Action>)
    requires Inv(s) && InFlight(s, true) && Delivered(s, true) && CanRun(s, run) && InWindow(s, run)
    ensures Delivered(After(s, run), true)
    decreases |run|
  {
    if run != [] {
      StepInv(s, run[0]);
      StepMatches(s, run[0], true);
      RunMatches(Do(s, run[0]), run[1..]);
    }
  }

  // However the calls on a slot time out, fail and reuse its numbers, and however often
  // the server repeats itself: a reply handed to a call is the reply to that call,
  // unless some reply stayed in the client for a full cycle of 1000000 uses of the slot.
  lemma ReplyMatching(idx: nat, run: seq<Action>)
    requires idx < 512 && CanRun(Init(idx), run) && InWindow(Init(idx), run)
    ensures var h := After(Init(idx), run).h;
      && (forall c :: c in h.done && h.done[c].Got? ==> h.done[c].r.req == c)
      && (forall i :: 0 <= i < |h.fired| && h.fired[i].1.Some? ==> h.fired[i].1.value.req == h.fired[i].0)
  {
    InitInv(idx);
    RunMatches(Init(idx), run);
  }

  // Without the window: a reply, returned or handed to a completion, can only go to a
  // call a whole number of cycles away.
  lemma MisroutedByWholeCycles(idx: nat, run: seq<Action>)
    requires idx < 512 && CanRun(Init(idx), run)
    ensures var h := After(Init(idx), run).h;
      && (forall c :: c in h.done && h.done[c].Got? ==> CyclesAway(h, c, h.done[c].r))
      && (forall i :: 0 <= i < |h.fired| && h.fired[i].1.Some? ==> CyclesAway(h, h.fired[i].0, h.fired[i].1.value))
  {
    Reached(idx, run);
    assert Delivered(After(Init(idx), run), false);
  }

  predicate CyclesAway(h: History, c: nat, r: Reply) {
    c in h.genOf && r.req in h.genOf && h.genOf[c] % 1_000_000 == h.genOf[r.req] % 1_000_000
  }

  // ---- the number of a slot ----

  // Places that can have the slot's number: the channel, calls, a registered
  // completion, the reader, the ticker and the sweep.
  function Holders(s: Slot): set<Owner> {
    (if s.tokens != [] then {InQueue} else {})
    + (set c | c in s.calls && HoldsNum(s.calls[c]) :: OfCall(c))
    + (if s.reg.cmpl.Some? && !s.reg.lock.ByCall? then {Registered(s.reg.cmpl.value)} else {})
    + (if ReaderHolds(s.reader) then {AtReader(s.reader.c)} else {})
    + (if TickerHolds(s.ticker) then {AtTicker(s.ticker.c)} else {})
    + (if SweepHolds(s.sweep) then {AtSweep(s.sweep.c)} else {})
  }

  // In every reachable state exactly one place has the number, the channel never has
  // two, and what it has is the slot's next unused number.
  lemma TokenConserved(idx: nat, run: seq<Action>)
    requires idx < 512 && CanRun(Init(idx), run)
    ensures var s := After(Init(idx), run);
      && |Holders(s)| == 1
      && |s.tokens| <= 1
      && (s.tokens != [] ==> s.tokens[0] == SeqOf(s.idx, s.h.gen))
  {
    Reached(idx, run);
    OneHolder(After(Init(idx), run));
  }

  lemma OneHolder(s: Slot)
    requires Tokens(s) && Locks(s)
    ensures Holders(s) == {s.owner}
  {
    assert s.owner in Holders(s);
    forall o | o in Holders(s) ensures o == s.owner {
    }
  }

  // ---- completions ----

  // A completion is called at most once, and one whose request had a number only after
  // the number went back.
  lemma CompletionsFireOnce(idx: nat, run: seq<Action>)
    requires idx < 512 && CanRun(Init(idx), run)
    ensures var h := After(Init(idx), run).h;
      && (forall i, j :: 0 <= i < j < |h.fired| ==> h.fired[i].0 != h.fired[j].0)
      && (forall i :: 0 <= i < |h.fired| && h.fired[i].0 in h.genOf ==> h.fired[i].0 in h.returned)
  {
    Reached(idx, run);
  }

  // Once the number is back in the channel and nothing is about to call a completion,
  // every call that came to the slot has its result or has had its completion called.
  lemma EveryCallIsAnswered(idx: nat, run: seq<Action>, c: nat)
    requires idx < 512 && CanRun(Init(idx), run)
    requires c in After(Init(idx), run).h.used
    ensures var s := After(Init(idx), run);
      || Answered(s, c)
      || (!s.owner.InQueue? && s.owner.c == c && s.tokens == [])
      || Firing(s, c)
  {
    Reached(idx, run);
  }

  // ---- a reader facing a full channel ----

  // Steps the holder of the number has left before `repl` is empty.
  function StepsToDrain(s: Slot): nat
    requires s.owner.OfCall? ==> s.owner.c in s.calls
  {
    match s.owner
    case OfCall(c) =>
      (match s.calls[c]
       case SyncStored(_) => 5
       case SyncWaiting(_) => 3
       case SyncLeft(_, _) => 2
       case SyncCleared(_, _) => 1
       case _ => 0)
    case AtTicker(_) => if s.ticker.TFlagged? then 2 else if s.ticker.TUnlocked? then 1 else 0
    case _ => 0
  }

  predicate HoldersStep(s: Slot, a: Action) {
    match s.owner
    case OfCall(c) => (a.OfSync? && a.sync.c == c) || (a.OfEntry? && a.entry == GiveBack(c))
    case AtTicker(_) => a.OfTicker?
    case _ => false
  }

  // The reader is about to put a reply into a full `repl`, before any error.
  predicate Stuck(s: Slot) {
    s.reader.RPut? && s.reg.repl.Some? && s.sweep.WIdle? && !s.h.swept
  }

  // Step a from s to s' leaves the reader where it is and does not put the drain off;
  // a step of the holder brings it nearer.
  predicate Nearer(s: Slot, a: Action, s': Slot)
    requires s.owner.OfCall? ==> s.owner.c in s.calls
  {
    && s'.reader == s.reader
    && (|| s'.reg.repl.None?
        || (&& Stuck(s') && (s'.owner.OfCall? ==> s'.owner.c in s'.calls)
            && StepsToDrain(s') <= StepsToDrain(s)
            && (HoldersStep(s, a) ==> StepsToDrain(s') < StepsToDrain(s))))
  }

  // The slot is then still in the use the reader compared with; whoever has the number
  // has yet to empty `repl` and is free to go on.
  lemma StuckHasDrainer(s: Slot)
    requires Good(s) && Stuck(s)
    ensures s.reader.gen == s.h.gen
    ensures s.owner.OfCall? || s.owner.AtTicker?
    ensures s.owner.OfCall? ==> s.owner.c in s.calls
    ensures StepsToDrain(s) > 0
    ensures exists a :: HoldersStep(s, a) && Enabled(s, a)
  {
    if s.owner.OfCall? {
      var c := s.owner.c;
      var a := match s.calls[c]
        case SyncStored(_) => Send(c)
        case SyncWaiting(_) => Recv(c)
        case SyncLeft(_, _) => Clear(c)
        case _ => Drain(c);
      assert HoldersStep(s, OfSync(a)) && Enabled(s, OfSync(a));
    } else {
      var a := if s.ticker.TFlagged? then TUnlock else TDrain;
      assert HoldersStep(s, OfTicker(a)) && Enabled(s, OfTicker(a));
    }
  }

  // No step before an error puts the drain off, and each step of the holder brings it
  // nearer: so the put goes ahead once the holder is scheduled often enough.
  lemma StuckReaderIsFreed(idx: nat, run: seq<Action>, a: Action)
    requires idx < 512 && CanRun(Init(idx), run)
    requires Stuck(After(Init(idx), run)) && Enabled(After(Init(idx), run), a) && !a.OfSweep?
    ensures var s := After(Init(idx), run);
      && (s.owner.OfCall? ==> s.owner.c in s.calls)
      && (exists x :: HoldersStep(s, x) && Enabled(s, x))
      && Nearer(s, a, Do(s, a))
  {
    Reached(idx, run);
    StuckHasDrainer(After(Init(idx), run));
    match a
    case OfEntry(x) => StuckEntry(After(Init(idx), run), x);
    case OfSync(x) => StuckSync(After(Init(idx), run), x);
    case OfAsync(x) => StuckAsync(After(Init(idx), run), x);
    case OfReader(x) =>
    case OfTicker(x) => StuckTicker(After(Init(idx), run), x);
  }

  lemma StuckEntry(s: Slot, a: EntryAction)
    requires Tokens(s) && Stuck(s) && EnabledEntry(s, a)
    requires s.owner.OfCall? || s.owner.AtTicker?
    requires s.owner.OfCall? ==> s.owner.c in s.calls
    requires StepsToDrain(s) > 0
    ensures Nearer(s, OfEntry(a), DoEntry(s, a))
  {
  }

  lemma StuckSync(s: Slot, a: SyncAction)
    requires Tokens(s) && Stuck(s) && EnabledSync(s, a)
    requires s.owner.OfCall? || s.owner.AtTicker?
    requires s.owner.OfCall? ==> s.owner.c in s.calls
    requires StepsToDrain(s) > 0
    ensures Nearer(s, OfSync(a), DoSync(s, a))
  {
  }

  lemma StuckAsync(s: Slot, a: AsyncAction)
    requires Tokens(s) && Stuck(s) && EnabledAsync(s, a)
    requires s.owner.OfCall? || s.owner.AtTicker?
    requires s.owner.OfCall? ==> s.owner.c in s.calls
    requires StepsToDrain(s) > 0
    ensures Nearer(s, OfAsync(a), DoAsync(s, a))
  {
  }

  lemma StuckTicker(s: Slot, a: TickerAction)
    requires Tokens(s) && Locks(s) && Stuck(s) && EnabledTicker(s, a)
    requires s.owner.OfCall? || s.owner.AtTicker?
    requires s.owner.OfCall? ==> s.owner.c in s.calls
    requires StepsToDrain(s) > 0
    ensures Nearer(s, OfTicker(a), DoTicker(s, a))
  {
  }
}
