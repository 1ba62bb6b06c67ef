// What every step on a request slot keeps.

module ConnectionInvariant {
  import opened Wrappers
  import opened SeqNums
  import opened ConnectionSlot

  function Cur(s: Slot): nat { SeqOf(s.idx, s.h.gen) }

  // ---- program points ----

  predicate HoldsNum(pc: CallPc) { !pc.AsyncSending? && !pc.AsyncChecked? }

  predicate InLock(pc: CallPc) {
    pc.AsyncLocked? || pc.AsyncDeadline? || pc.AsyncFlagged? || pc.AsyncStored? || pc.AsyncDrained?
  }

  predicate SyncHasReply(pc: CallPc) {
    (pc.SyncLeft? || pc.SyncCleared? || pc.SyncDrained?) && pc.out.Got?
  }

  predicate ReaderHasFrame(rd: ReaderPc) { !rd.RIdle? && !rd.RDone? && !rd.RReject? }

  predicate ReaderHolds(rd: ReaderPc) { rd.RTook? || rd.RDeadline? || rd.RCleared? || rd.RFlagged? || rd.RUnlocked? }

  predicate ReaderLocks(rd: ReaderPc) {
    rd.RLocked? || rd.RTook? || rd.RDeadline? || rd.RCleared? || rd.RFlagged? || rd.RReject?
  }

  // The reader has compared a frame's number with the slot's and not yet decided on it.
  predicate ReaderCompared(rd: ReaderPc) { rd.RMatched? || rd.RAsync? || rd.RLocked? || rd.RPut? }

  predicate TickerHolds(tk: TickerPc) {
    tk.TTook? || tk.TLoaded? || tk.TCleared? || tk.TFlagged? || tk.TUnlocked? || tk.TDrained?
  }

  predicate TickerLocks(tk: TickerPc) {
    tk.TLocked? || tk.TTook? || tk.TLoaded? || tk.TCleared? || tk.TFlagged? || tk.TReject?
  }

  predicate SweepHolds(sw: SweepPc) {
    sw.WTook? || sw.WDeadline? || sw.WLoaded? || sw.WCleared? || sw.WFlagged? || sw.WUnlocked?
  }

  predicate SweepLocks(sw: SweepPc) {
    sw.WLocked? || sw.WTook? || sw.WDeadline? || sw.WLoaded? || sw.WCleared? || sw.WFlagged? || sw.WReject?
  }

  // ---- who holds the number ----

  // The single token of the slot is where `owner` says, and nowhere else.
  ghost predicate Tokens(s: Slot) {
    && s.idx < 512
    && s.tokens == (if s.owner.InQueue? then [Cur(s)] else [])
    && (forall c :: c in s.calls && HoldsNum(s.calls[c]) ==> s.owner == OfCall(c) && s.calls[c].num == Cur(s))
    && (s.owner.OfCall? ==> s.owner.c in s.calls && HoldsNum(s.calls[s.owner.c]))
    && (ReaderHolds(s.reader) <==> s.owner.AtReader?)
    && (s.owner.AtReader? ==> s.owner.c == s.reader.c && s.reader.r.rseq == Cur(s))
    && (TickerHolds(s.ticker) <==> s.owner.AtTicker?)
    && (s.owner.AtTicker? ==> s.owner.c == s.ticker.c && (!s.ticker.TTook? ==> s.ticker.num == Cur(s)))
    && (SweepHolds(s.sweep) <==> s.owner.AtSweep?)
    && (s.owner.AtSweep? ==> s.owner.c == s.sweep.c && (!s.sweep.WTook? && !s.sweep.WDeadline? ==> s.sweep.num == Cur(s)))
  }

  // ---- what the shared fields hold ----

  predicate StartingAsync(s: Slot) {
    s.owner.OfCall? && s.owner.c in s.calls && InLock(s.calls[s.owner.c])
  }

  predicate NumShown(s: Slot) {
    match s.owner
    case InQueue => false
    case OfCall(c) =>
      c in s.calls && var pc := s.calls[c];
      pc.SyncStored? || pc.SyncWaiting? || pc.SyncLeft? || pc.AsyncStored? || pc.AsyncDrained?
    case Registered(_) => true
    case AtReader(_) => s.reader.RTook? || s.reader.RDeadline?
    case AtTicker(_) => s.ticker.TTook? || s.ticker.TLoaded?
    case AtSweep(_) => s.sweep.WTook? || s.sweep.WDeadline? || s.sweep.WLoaded?
  }

  // Nobody has stored a number for the current generation yet.
  predicate NumUnset(s: Slot) {
    s.owner.InQueue? ||
    (s.owner.OfCall? && s.owner.c in s.calls && var pc := s.calls[s.owner.c];
     pc.Taken? || pc.AsyncLocked? || pc.AsyncDeadline? || pc.AsyncFlagged?)
  }

  predicate FlagShown(s: Slot) {
    match s.owner
    case InQueue => false
    case OfCall(c) => c in s.calls && var pc := s.calls[c]; pc.AsyncFlagged? || pc.AsyncStored? || pc.AsyncDrained?
    case Registered(_) => true
    case AtReader(_) => s.reader.RTook? || s.reader.RDeadline? || s.reader.RCleared?
    case AtTicker(_) => s.ticker.TTook? || s.ticker.TLoaded? || s.ticker.TCleared?
    case AtSweep(_) => s.sweep.WTook? || s.sweep.WDeadline? || s.sweep.WLoaded? || s.sweep.WCleared?
  }

  ghost predicate Locks(s: Slot) {
    && s.reg.cmpl == (if s.owner.Registered? || StartingAsync(s) then Some(s.owner.c) else None)
    && (s.reg.lock.ByCall? <==> StartingAsync(s))
    && (s.reg.lock.ByCall? ==> s.reg.lock.c == s.owner.c)
    && (s.reg.lock.ByReader? <==> ReaderLocks(s.reader))
    && (s.reg.lock.ByTicker? <==> TickerLocks(s.ticker))
    && (s.reg.lock.BySweep? <==> SweepLocks(s.sweep))
  }

  ghost predicate Shown(s: Slot) {
    && s.reg.isAsync == FlagShown(s)
    && (if NumShown(s) then s.reg.seqNum == Cur(s)
        else s.reg.seqNum == 512_000_000 || (NumUnset(s) && s.reg.seqNum == 0 && s.h.gen == 0 && s.h.sent == {}))
  }

  // ---- who used which generation ----

  predicate Idle(s: Slot) {
    s.owner.InQueue? || (s.owner.OfCall? && s.owner.c in s.calls && s.calls[s.owner.c].Taken?)
  }

  ghost predicate Users(s: Slot) {
    && (forall r :: r in s.h.sent ==> r.req in s.h.genOf && r.rseq == SeqOf(s.idx, s.h.genOf[r.req]))
    && (forall c :: c in s.h.genOf ==> c in s.h.used && s.h.genOf[c] in s.h.userOf && s.h.userOf[s.h.genOf[c]] == c)
    && (forall g :: g in s.h.userOf ==> g <= s.h.gen && (Idle(s) ==> g < s.h.gen))
    && (!Idle(s) ==> s.owner.c in s.h.genOf && s.h.genOf[s.owner.c] == s.h.gen)
  }

  ghost predicate Callers(s: Slot) {
    && (forall c :: c in s.calls ==> if s.calls[c].AsyncChecked? then c !in s.h.used else c in s.h.used)
    && (forall c :: c in s.calls && s.calls[c].Taken? ==> c !in s.h.genOf)
    && (forall c :: c in s.calls && s.calls[c].AsyncSending? ==>
          c in s.h.genOf && s.calls[c].num == SeqOf(s.idx, s.h.genOf[c]))
  }

  ghost predicate Replies(s: Slot) {
    && (forall c :: c in s.calls && SyncHasReply(s.calls[c]) ==> s.calls[c].out.r in s.h.sent)
    && (s.reg.repl.Some? ==> s.reg.repl.value in s.h.sent)
    && (ReaderHasFrame(s.reader) ==> s.reader.r in s.h.sent)
  }

  ghost predicate Inv(s: Slot) {
    Tokens(s) && Locks(s) && Shown(s) && Users(s) && Callers(s) && Replies(s)
  }

  lemma InitInv(idx: nat)
    requires idx < 512
    ensures Inv(Init(idx))
  {
  }

  lemma EntryKeepsTokens(s: Slot, a: EntryAction)
    requires Tokens(s) && Locks(s) && Shown(s) && EnabledEntry(s, a)
    ensures Tokens(DoEntry(s, a))
  {
  }

  lemma SyncKeepsTokens(s: Slot, a: SyncAction)
    requires Tokens(s) && Locks(s) && Shown(s) && EnabledSync(s, a)
    ensures Tokens(DoSync(s, a))
  {
    NextGeneration(s);
  }

  lemma EntryKeepsLocks(s: Slot, a: EntryAction)
    requires Inv(s) && EnabledEntry(s, a)
    ensures Locks(DoEntry(s, a))
  {
  }

  lemma SyncKeepsLocks(s: Slot, a: SyncAction)
    requires Inv(s) && EnabledSync(s, a)
    ensures Locks(DoSync(s, a))
  {
  }

  lemma EntryKeepsShown(s: Slot, a: EntryAction)
    requires Tokens(s) && Locks(s) && Shown(s) && EnabledEntry(s, a)
    ensures Shown(DoEntry(s, a))
  {
  }

  lemma SyncKeepsShown(s: Slot, a: SyncAction)
    requires Tokens(s) && Locks(s) && Shown(s) && EnabledSync(s, a)
    ensures Shown(DoSync(s, a))
  {
  }

  lemma EntryKeepsUsers(s: Slot, a: EntryAction)
    requires Tokens(s) && Locks(s) && Shown(s) && Users(s) && Callers(s) && EnabledEntry(s, a)
    ensures Users(DoEntry(s, a))
  {
  }

  lemma SyncKeepsUsers(s: Slot, a: SyncAction)
    requires Tokens(s) && Locks(s) && Shown(s) && Users(s) && Callers(s) && EnabledSync(s, a)
    ensures Users(DoSync(s, a))
  {
  }

  lemma EntryKeepsCallers(s: Slot, a: EntryAction)
    requires Tokens(s) && Locks(s) && Shown(s) && Users(s) && Callers(s) && EnabledEntry(s, a)
    ensures Callers(DoEntry(s, a))
  {
  }

  lemma SyncKeepsCallers(s: Slot, a: SyncAction)
    requires Tokens(s) && Locks(s) && Shown(s) && Users(s) && Callers(s) && EnabledSync(s, a)
    ensures Callers(DoSync(s, a))
  {
  }

  lemma EntryKeepsReplies(s: Slot, a: EntryAction)
    requires Inv(s) && EnabledEntry(s, a)
    ensures Replies(DoEntry(s, a))
  {
  }

  lemma SyncKeepsReplies(s: Slot, a: SyncAction)
    requires Inv(s) && EnabledSync(s, a)
    ensures Replies(DoSync(s, a))
  {
  }

  lemma AsyncKeepsTokens(s: Slot, a: AsyncAction)
    requires Tokens(s) && Locks(s) && EnabledAsync(s, a)
    ensures Tokens(DoAsync(s, a))
  {
    NextGeneration(s);
  }

  lemma AsyncKeepsLocks(s: Slot, a: AsyncAction)
    requires Inv(s) && EnabledAsync(s, a)
    ensures Locks(DoAsync(s, a))
  {
  }

  lemma AsyncKeepsShown(s: Slot, a: AsyncAction)
    requires Tokens(s) && Shown(s) && Users(s) && Callers(s) && EnabledAsync(s, a)
    ensures Shown(DoAsync(s, a))
  {
    if a.ASend? && s.h.gen == 0 {
      assert s.h.userOf[s.h.genOf[a.c]] == a.c;
      assert !NumUnset(s);
    }
  }

  lemma AsyncKeepsUsers(s: Slot, a: AsyncAction)
    requires Tokens(s) && Locks(s) && Users(s) && Callers(s) && Replies(s) && EnabledAsync(s, a)
    ensures Users(DoAsync(s, a))
  {
  }

  lemma AsyncKeepsCallers(s: Slot, a: AsyncAction)
    requires Tokens(s) && Users(s) && Callers(s) && EnabledAsync(s, a)
    ensures Callers(DoAsync(s, a))
  {
  }

  lemma AsyncKeepsReplies(s: Slot, a: AsyncAction)
    requires Tokens(s) && Locks(s) && Shown(s) && Replies(s) && EnabledAsync(s, a)
    ensures Replies(DoAsync(s, a))
  {
  }

  lemma ReaderKeepsTokens(s: Slot, a: ReaderAction)
    requires Tokens(s) && Locks(s) && Shown(s) && Callers(s) && EnabledReader(s, a)
    ensures Tokens(DoReader(s, a))
  {
    NextGeneration(s);
  }

  lemma ReaderKeepsLocks(s: Slot, a: ReaderAction)
    requires Inv(s) && EnabledReader(s, a)
    ensures Locks(DoReader(s, a))
  {
  }

  lemma ReaderKeepsShown(s: Slot, a: ReaderAction)
    requires Tokens(s) && Locks(s) && Shown(s) && Users(s) && Callers(s) && EnabledReader(s, a)
    ensures Shown(DoReader(s, a))
  {
  }

  lemma ReaderKeepsUsers(s: Slot, a: ReaderAction)
    requires Inv(s) && EnabledReader(s, a)
    ensures Users(DoReader(s, a))
  {
  }

  lemma ReaderKeepsCallers(s: Slot, a: ReaderAction)
    requires Inv(s) && EnabledReader(s, a)
    ensures Callers(DoReader(s, a))
  {
  }

  lemma ReaderKeepsReplies(s: Slot, a: ReaderAction)
    requires Inv(s) && EnabledReader(s, a)
    ensures Replies(DoReader(s, a))
  {
  }

  lemma TickerKeepsTokens(s: Slot, a: TickerAction)
    requires Tokens(s) && Locks(s) && Shown(s) && EnabledTicker(s, a)
    ensures Tokens(DoTicker(s, a))
  {
    NextGeneration(s);
  }

  lemma TickerKeepsLocks(s: Slot, a: TickerAction)
    requires Inv(s) && EnabledTicker(s, a)
    ensures Locks(DoTicker(s, a))
  {
  }

  lemma TickerKeepsShown(s: Slot, a: TickerAction)
    requires Inv(s) && EnabledTicker(s, a)
    ensures Shown(DoTicker(s, a))
  {
  }

  lemma TickerKeepsUsers(s: Slot, a: TickerAction)
    requires Inv(s) && EnabledTicker(s, a)
    ensures Users(DoTicker(s, a))
  {
  }

  lemma TickerKeepsCallers(s: Slot, a: TickerAction)
    requires Inv(s) && EnabledTicker(s, a)
    ensures Callers(DoTicker(s, a))
  {
  }

  lemma TickerKeepsReplies(s: Slot, a: TickerAction)
    requires Inv(s) && EnabledTicker(s, a)
    ensures Replies(DoTicker(s, a))
  {
  }

  lemma SweepKeepsTokens(s: Slot, a: SweepAction)
    requires Tokens(s) && Locks(s) && Shown(s) && EnabledSweep(s, a)
    ensures Tokens(DoSweep(s, a))
  {
    NextGeneration(s);
  }

  lemma SweepKeepsLocks(s: Slot, a: SweepAction)
    requires Inv(s) && EnabledSweep(s, a)
    ensures Locks(DoSweep(s, a))
  {
  }

  lemma SweepKeepsShown(s: Slot, a: SweepAction)
    requires Tokens(s) && Locks(s) && Shown(s) && Callers(s) && EnabledSweep(s, a)
    ensures Shown(DoSweep(s, a))
  {
  }

  lemma SweepKeepsUsers(s: Slot, a: SweepAction)
    requires Tokens(s) && Locks(s) && Users(s) && Replies(s) && EnabledSweep(s, a)
    ensures Users(DoSweep(s, a))
  {
  }

  lemma SweepKeepsCallers(s: Slot, a: SweepAction)
    requires Tokens(s) && Locks(s) && Users(s) && Callers(s) && EnabledSweep(s, a)
    ensures Callers(DoSweep(s, a))
  {
  }

  lemma SweepKeepsReplies(s: Slot, a: SweepAction)
    requires Inv(s) && EnabledSweep(s, a)
    ensures Replies(DoSweep(s, a))
  {
  }

  lemma NextGeneration(s: Slot)
    ensures NextSeqNum(Cur(s)) == SeqOf(s.idx, s.h.gen + 1)
  {
  }
}
