// The request multiplexer of bindings/cproto/connection.go, one request slot at a
// time. A slot is shared by the calls that take its sequence number in turn, the
// reader, the deadline ticker and the error sweep; an action is one atomic load or
// store, one lock acquisition or release, or one channel operation.

module SeqNums {
  // queueSize is 512 and maxSeqNum is 512 * 1000000.
  function NextSeqNum(seqNum: nat): nat {
    if seqNum + 512 < 512_000_000 then seqNum + 512 else seqNum + 512 - 512_000_000
  }

  // The number slot `idx` uses in its generation `gen`.
  function SeqOf(idx: nat, gen: nat): nat {
    if gen == 0 then idx else NextSeqNum(SeqOf(idx, gen - 1))
  }

  lemma {:induction false} ClosedForm(idx: nat, gen: nat)
    requires idx < 512
    ensures SeqOf(idx, gen) == idx + 512 * (gen % 1_000_000)
  {
    if gen > 0 {
      ClosedForm(idx, gen - 1);
      var g := (gen - 1) % 1_000_000;
      assert gen % 1_000_000 == if g == 999_999 then 0 else g + 1;
    }
  }

  // Two uses get the same number exactly when they are of the same slot and a multiple
  // of 1000000 generations apart: a number keeps its slot for ever, and comes back
  // after 1000000 uses and not before.
  lemma SameNumber(idx: nat, gen: nat, idx': nat, gen': nat)
    requires idx < 512 && idx' < 512
    ensures SeqOf(idx, gen) % 512 == idx
    ensures SeqOf(idx, gen) == SeqOf(idx', gen') <==> idx == idx' && gen % 1_000_000 == gen' % 1_000_000
  {
    ClosedForm(idx, gen);
    ClosedForm(idx', gen');
  }

  lemma CloseGenerations(g: nat, h: nat)
    requires g <= h < g + 1_000_000 && g % 1_000_000 == h % 1_000_000
    ensures g == h
  {
  }
}

module ConnectionSlot {
  import opened Wrappers
  import opened SeqNums

  // A reply frame; `req` is the call it answers, which only the server knows.
  datatype Reply = Reply(rseq: nat, req: nat)

  datatype Outcome = Got(r: Reply) | Failed

  // Where a call is in rpcCall or rpcCallAsync.
  datatype CallPc =
    | AsyncChecked                          // rpcCallAsync saw no error, awaits a number
    | Taken(num: nat, async: bool)          // awaitSeqNum received a number
    | SyncStored(num: nat)                  // seqNum stored, request not written yet
    | SyncWaiting(num: nat)                 // in the select loop
    | SyncLeft(num: nat, out: Outcome)      // out of the loop
    | SyncCleared(num: nat, out: Outcome)   // seqNum invalidated
    | SyncDrained(num: nat, out: Outcome)   // repl drained, number still held
    | AsyncLocked(num: nat)                 // cmplLock held, cmpl set
    | AsyncDeadline(num: nat)               // deadline stored
    | AsyncFlagged(num: nat)                // isAsync stored
    | AsyncStored(num: nat)                 // seqNum stored
    | AsyncDrained(num: nat)                // repl drained
    | AsyncSending(num: nat)                // lock released, request not written yet

  // Where readReply is; `gen` is auxiliary: the slot's generation when it compared.
  datatype ReaderPc =
    | RIdle
    | RDone
    | RRead(r: Reply)
    | RMatched(r: Reply, gen: nat)
    | RAsync(r: Reply, gen: nat)
    | RLocked(r: Reply, gen: nat)
    | RTook(r: Reply, c: nat)
    | RDeadline(r: Reply, c: nat)
    | RCleared(r: Reply, c: nat)
    | RFlagged(r: Reply, c: nat)
    | RUnlocked(r: Reply, c: nat)
    | RReturned(r: Reply, c: nat)
    | RReject
    | RPut(r: Reply, gen: nat)

  // TIdle: waiting for the next tick; TArmed: the scan of this tick has yet to come here.
  datatype TickerPc =
    | TIdle
    | TStopped
    | TArmed
    | TSeen
    | TDue(deadline: nat)
    | TAsync(deadline: nat)
    | TLocked(deadline: nat)
    | TTook(c: nat)
    | TLoaded(c: nat, num: nat)
    | TCleared(c: nat, num: nat)
    | TFlagged(c: nat, num: nat)
    | TUnlocked(c: nat, num: nat)
    | TDrained(c: nat, num: nat)
    | TReturned(c: nat)
    | TReject

  // WIdle: no error yet; WRaised: the error is set, errCh and termCh are closed.
  datatype SweepPc =
    | WIdle
    | WRaised
    | WAsync
    | WLocked
    | WTook(c: nat)
    | WDeadline(c: nat)
    | WLoaded(c: nat, num: nat)
    | WCleared(c: nat, num: nat)
    | WFlagged(c: nat, num: nat)
    | WUnlocked(c: nat, num: nat)
    | WReturned(c: nat)
    | WReject
    | WDone

  datatype Lock = Free | ByCall(c: nat) | ByReader | ByTicker | BySweep

  // Auxiliary: who has the slot's sequence number.
  datatype Owner = InQueue | OfCall(c: nat) | Registered(c: nat) | AtReader(c: nat) | AtTicker(c: nat) | AtSweep(c: nat)

  // requestInfo
  datatype Registers = Registers(
    seqNum: nat, repl: Option<Reply>, deadline: nat, isAsync: bool, cmpl: Option<nat>, lock: Lock)

  // What the calls got, and auxiliary history: the replies the server may send, how
  // often the number was passed on, who used which generation, which calls exist and
  // which gave their number back, whether the sweep did, which asynchronous calls stored
  // their flag (in time for the sweep or not), and whom the reader or the ticker took.
  datatype History = History(
    done: map<nat, Outcome>, fired: seq<(nat, Option<Reply>)>,
    sent: set<Reply>, gen: nat, genOf: map<nat, nat>, userOf: map<nat, nat>, used: set<nat>, returned: set<nat>,
    swept: bool, flagged: map<nat, bool>, took: set<nat>)

  // `tokens` is the slot's share of the seqs channel.
  datatype Slot = Slot(
    idx: nat, reg: Registers, tokens: seq<nat>, calls: map<nat, CallPc>,
    reader: ReaderPc, ticker: TickerPc, sweep: SweepPc, owner: Owner, h: History)

  function Init(idx: nat): Slot {
    Slot(idx, Registers(0, None, 0, false, None, Free), [idx], map[], RIdle, TIdle, WIdle, InQueue,
         History(map[], [], {}, 0, map[], map[], {}, {}, false, map[], {}))
  }

  datatype EntryAction =
    | Check(c: nat) | FailEarly(c: nat, async: bool) | Take(c: nat, async: bool) | GiveBack(c: nat)

  datatype SyncAction =
    | Store(c: nat) | Send(c: nat) | Recv(c: nat) | GiveUp(c: nat) | Clear(c: nat) | Drain(c: nat) | Return(c: nat)

  datatype AsyncAction =
    | ALock(c: nat) | ASetDeadline(c: nat, d: nat) | AFlag(c: nat) | AStore(c: nat)
    | ADrain(c: nat) | AUnlock(c: nat) | ASend(c: nat)

  datatype ReaderAction =
    | RReceive(frame: Reply) | RCompare | RLoadFlag | RLock | RDecide | RZeroDeadline | RClear | RUnflag | RUnlock
    | RReturnToken | RFire | RDeliver | RStop

  datatype TickerAction =
    | TTick | TLoadSeq | TLoadDeadline(due: bool) | TLoadFlag | TLock | TDecide | TLoad | TClear | TUnflag | TUnlock
    | TDrain | TReturnToken | TFire

  datatype SweepAction =
    | WRaise | WLoadFlag | WLock | WDecide | WZeroDeadline | WLoad | WClear | WUnflag | WUnlock | WReturnToken | WFire

  datatype Action =
    | OfEntry(entry: EntryAction) | OfSync(sync: SyncAction) | OfAsync(async: AsyncAction) | OfReader(rd: ReaderAction)
    | OfTicker(tk: TickerAction) | OfSweep(sw: SweepAction)

  predicate Enabled(s: Slot, a: Action) {
    match a
    case OfEntry(x) => EnabledEntry(s, x)
    case OfSync(x) => EnabledSync(s, x)
    case OfAsync(x) => EnabledAsync(s, x)
    case OfReader(x) => EnabledReader(s, x)
    case OfTicker(x) => EnabledTicker(s, x)
    case OfSweep(x) => EnabledSweep(s, x)
  }

  function Do(s: Slot, a: Action): Slot
    requires Enabled(s, a)
  {
    match a
    case OfEntry(x) => DoEntry(s, x)
    case OfSync(x) => DoSync(s, x)
    case OfAsync(x) => DoAsync(s, x)
    case OfReader(x) => DoReader(s, x)
    case OfTicker(x) => DoTicker(s, x)
    case OfSweep(x) => DoSweep(s, x)
  }

  // A call that has not begun, or is past the check if it is asynchronous.
  predicate Entering(s: Slot, c: nat, async: bool) {
    if async then c in s.calls && s.calls[c].AsyncChecked? else c !in s.h.used && c !in s.calls
  }

  // Check takes the connection's lock, which onError keeps until it is through.
  predicate EnabledEntry(s: Slot, a: EntryAction) {
    match a
    case Check(c) => Entering(s, c, false) && (s.sweep.WIdle? || s.sweep.WDone?)
    case FailEarly(c, async) => Entering(s, c, async)
    case Take(c, async) => Entering(s, c, async) && s.tokens != []
    case GiveBack(c) => c in s.calls && s.calls[c].Taken?
  }

  predicate EnabledSync(s: Slot, a: SyncAction) {
    match a
    case Store(c) => c in s.calls && s.calls[c].Taken? && !s.calls[c].async
    case Send(c) => c in s.calls && s.calls[c].SyncStored?
    case Recv(c) => c in s.calls && s.calls[c].SyncWaiting? && s.reg.repl.Some?
    case GiveUp(c) => c in s.calls && s.calls[c].SyncWaiting?
    case Clear(c) => c in s.calls && s.calls[c].SyncLeft?
    case Drain(c) => c in s.calls && s.calls[c].SyncCleared?
    case Return(c) => c in s.calls && s.calls[c].SyncDrained?
  }

  // awaitSeqNum, and the look for an error before it
  function DoEntry(s: Slot, a: EntryAction): Slot
    requires EnabledEntry(s, a)
  {
    match a
    case Check(c) =>
      // rpcCallAsync asks for an error first
      if s.sweep.WIdle? then s.(calls := s.calls[c := AsyncChecked])
      else s.(h := s.h.(used := s.h.used + {c}, fired := s.h.fired + [(c, None)]))
    case FailEarly(c, async) =>
      // no number in time: fail without ever holding one
      if async then s.(calls := s.calls - {c}, h := s.h.(used := s.h.used + {c}, fired := s.h.fired + [(c, None)]))
      else s.(h := s.h.(used := s.h.used + {c}, done := s.h.done[c := Failed]))
    case Take(c, async) =>
      s.(tokens := s.tokens[1..], calls := s.calls[c := Taken(s.tokens[0], async)], owner := OfCall(c), h := s.h.(used := s.h.used + {c}))
    case GiveBack(c) =>
      // the context was done already: the number goes back unused
      var pc := s.calls[c];
      s.(tokens := s.tokens + [pc.num], calls := s.calls - {c}, owner := InQueue,
         h := s.h.(returned := s.h.returned + {c},
                   done := if pc.async then s.h.done else s.h.done[c := Failed],
                   fired := if pc.async then s.h.fired + [(c, None)] else s.h.fired))
  }

  // rpcCall
  function DoSync(s: Slot, a: SyncAction): Slot
    requires EnabledSync(s, a)
  {
    match a
    case Store(c) =>
      s.(reg := s.reg.(seqNum := s.calls[c].num), calls := s.calls[c := SyncStored(s.calls[c].num)],
         h := s.h.(genOf := s.h.genOf[c := s.h.gen], userOf := s.h.userOf[s.h.gen := c]))
    case Send(c) => s.(calls := s.calls[c := SyncWaiting(s.calls[c].num)], h := s.h.(sent := s.h.sent + {Reply(s.calls[c].num, c)}))
    case Recv(c) =>
      // a reply with another number is dropped and the wait goes on
      var num := s.calls[c].num;
      s.(reg := s.reg.(repl := None),
         calls := if s.reg.repl.value.rseq == num then s.calls[c := SyncLeft(num, Got(s.reg.repl.value))] else s.calls)
    case GiveUp(c) => s.(calls := s.calls[c := SyncLeft(s.calls[c].num, Failed)])
    case Clear(c) => s.(reg := s.reg.(seqNum := 512_000_000), calls := s.calls[c := SyncCleared(s.calls[c].num, s.calls[c].out)])
    case Drain(c) => s.(reg := s.reg.(repl := None), calls := s.calls[c := SyncDrained(s.calls[c].num, s.calls[c].out)])
    case Return(c) =>
      s.(tokens := s.tokens + [NextSeqNum(s.calls[c].num)], calls := s.calls - {c}, owner := InQueue,
         h := s.h.(done := s.h.done[c := s.calls[c].out], gen := s.h.gen + 1, returned := s.h.returned + {c}))
  }

  predicate EnabledAsync(s: Slot, a: AsyncAction) {
    a.c in s.calls &&
    match a
    case ALock(c) => s.calls[c].Taken? && s.calls[c].async && s.reg.lock.Free?
    case ASetDeadline(c, _) => s.calls[c].AsyncLocked?
    case AFlag(c) => s.calls[c].AsyncDeadline?
    case AStore(c) => s.calls[c].AsyncFlagged?
    case ADrain(c) => s.calls[c].AsyncStored?
    case AUnlock(c) => s.calls[c].AsyncDrained?
    case ASend(c) => s.calls[c].AsyncSending?
  }

  // The sweep will look at the slot again: it has yet to load the flag, or has seen one
  // and has yet to get the lock.
  predicate InTime(s: Slot) { s.sweep.WIdle? || s.sweep.WRaised? || s.sweep.WAsync? }

  // rpcCallAsync
  function DoAsync(s: Slot, a: AsyncAction): Slot
    requires EnabledAsync(s, a)
  {
    var num := s.calls[a.c].num;
    match a
    case ALock(c) =>
      s.(reg := s.reg.(lock := ByCall(c), cmpl := Some(c)), calls := s.calls[c := AsyncLocked(num)],
         h := s.h.(genOf := s.h.genOf[c := s.h.gen], userOf := s.h.userOf[s.h.gen := c]))
    case ASetDeadline(c, d) => s.(reg := s.reg.(deadline := d), calls := s.calls[c := AsyncDeadline(num)])
    case AFlag(c) =>
      s.(reg := s.reg.(isAsync := true), calls := s.calls[c := AsyncFlagged(num)],
         h := s.h.(flagged := s.h.flagged[c := InTime(s)]))
    case AStore(c) => s.(reg := s.reg.(seqNum := num), calls := s.calls[c := AsyncStored(num)])
    case ADrain(c) => s.(reg := s.reg.(repl := None), calls := s.calls[c := AsyncDrained(num)])
    case AUnlock(c) => s.(reg := s.reg.(lock := Free), calls := s.calls[c := AsyncSending(num)], owner := Registered(c))
    case ASend(c) => s.(calls := s.calls - {c}, h := s.h.(sent := s.h.sent + {Reply(num, c)}))
  }

  predicate EnabledReader(s: Slot, a: ReaderAction) {
    match a
    case RReceive(r) => s.reader.RIdle? && r in s.h.sent
    case RCompare => s.reader.RRead?
    case RLoadFlag => s.reader.RMatched?
    case RLock => s.reader.RAsync? && s.reg.lock.Free?
    case RDecide => s.reader.RLocked?
    case RZeroDeadline => s.reader.RTook?
    case RClear => s.reader.RDeadline?
    case RUnflag => s.reader.RCleared?
    case RUnlock => s.reader.RFlagged? || s.reader.RReject?
    case RReturnToken => s.reader.RUnlocked?
    case RFire => s.reader.RReturned?
    case RDeliver => s.reader.RPut? && s.reg.repl.None?
    case RStop => s.reader.RIdle?
  }

  predicate EnabledTicker(s: Slot, a: TickerAction) {
    match a
    case TTick => s.ticker.TIdle?
    case TLoadSeq => s.ticker.TArmed?
    case TLoadDeadline(_) => s.ticker.TSeen?
    case TLoadFlag => s.ticker.TDue?
    case TLock => s.ticker.TAsync? && s.reg.lock.Free?
    case TDecide => s.ticker.TLocked?
    case TLoad => s.ticker.TTook?
    case TClear => s.ticker.TLoaded?
    case TUnflag => s.ticker.TCleared?
    case TUnlock => s.ticker.TFlagged? || s.ticker.TReject?
    case TDrain => s.ticker.TUnlocked?
    case TReturnToken => s.ticker.TDrained?
    case TFire => s.ticker.TReturned?
  }

  predicate EnabledSweep(s: Slot, a: SweepAction) {
    match a
    case WRaise => s.sweep.WIdle?
    case WLoadFlag => s.sweep.WRaised?
    case WLock => s.sweep.WAsync? && s.reg.lock.Free?
    case WDecide => s.sweep.WLocked?
    case WZeroDeadline => s.sweep.WTook?
    case WLoad => s.sweep.WDeadline?
    case WClear => s.sweep.WLoaded?
    case WUnflag => s.sweep.WCleared?
    case WUnlock => s.sweep.WFlagged? || s.sweep.WReject?
    case WReturnToken => s.sweep.WUnlocked?
    case WFire => s.sweep.WReturned?
  }

  // readReply
  function DoReader(s: Slot, a: ReaderAction): Slot
    requires EnabledReader(s, a)
  {
    var rd := s.reader;
    match a
    case RReceive(r) => s.(reader := RRead(r))
    case RCompare => s.(reader := if s.reg.seqNum == rd.r.rseq then RMatched(rd.r, s.h.gen) else RIdle)
    case RLoadFlag => s.(reader := if s.reg.isAsync then RAsync(rd.r, rd.gen) else RPut(rd.r, rd.gen))
    case RLock => s.(reg := s.reg.(lock := ByReader), reader := RLocked(rd.r, rd.gen))
    case RDecide =>
      if s.reg.cmpl.Some? && s.reg.seqNum == rd.r.rseq
      then s.(reg := s.reg.(cmpl := None), reader := RTook(rd.r, s.reg.cmpl.value), owner := AtReader(s.reg.cmpl.value),
              h := s.h.(took := s.h.took + {s.reg.cmpl.value}))
      else s.(reader := RReject)
    case RZeroDeadline => s.(reg := s.reg.(deadline := 0), reader := RDeadline(rd.r, rd.c))
    case RClear => s.(reg := s.reg.(seqNum := 512_000_000), reader := RCleared(rd.r, rd.c))
    case RUnflag => s.(reg := s.reg.(isAsync := false), reader := RFlagged(rd.r, rd.c))
    case RUnlock => s.(reg := s.reg.(lock := Free), reader := if rd.RFlagged? then RUnlocked(rd.r, rd.c) else RIdle)
    case RReturnToken =>
      s.(reader := RReturned(rd.r, rd.c), tokens := s.tokens + [NextSeqNum(rd.r.rseq)], owner := InQueue,
         h := s.h.(gen := s.h.gen + 1, returned := s.h.returned + {rd.c}))
    case RFire => s.(reader := RIdle, h := s.h.(fired := s.h.fired + [(rd.c, Some(rd.r))]))
    case RDeliver => s.(reg := s.reg.(repl := Some(rd.r)), reader := RIdle)
    case RStop => s.(reader := RDone)
  }

  // deadlineTicker, at this slot
  function DoTicker(s: Slot, a: TickerAction): Slot
    requires EnabledTicker(s, a)
  {
    var tk := s.ticker;
    match a
    case TTick => s.(ticker := if s.sweep.WIdle? then TArmed else TStopped)
    case TLoadSeq => s.(ticker := if s.reg.seqNum < 512_000_000 then TSeen else TIdle)
    case TLoadDeadline(due) => s.(ticker := if s.reg.deadline != 0 && due then TDue(s.reg.deadline) else TIdle)
    case TLoadFlag => s.(ticker := if s.reg.isAsync then TAsync(tk.deadline) else TIdle)
    case TLock => s.(reg := s.reg.(lock := ByTicker), ticker := TLocked(tk.deadline))
    case TDecide =>
      if s.reg.cmpl.Some? && s.reg.deadline == tk.deadline
      then s.(reg := s.reg.(deadline := 0, cmpl := None), ticker := TTook(s.reg.cmpl.value), owner := AtTicker(s.reg.cmpl.value),
              h := s.h.(took := s.h.took + {s.reg.cmpl.value}))
      else s.(ticker := TReject)
    case TLoad => s.(ticker := TLoaded(tk.c, s.reg.seqNum))
    case TClear => s.(reg := s.reg.(seqNum := 512_000_000), ticker := TCleared(tk.c, tk.num))
    case TUnflag => s.(reg := s.reg.(isAsync := false), ticker := TFlagged(tk.c, tk.num))
    case TUnlock => s.(reg := s.reg.(lock := Free), ticker := if tk.TFlagged? then TUnlocked(tk.c, tk.num) else TIdle)
    case TDrain => s.(reg := s.reg.(repl := None), ticker := TDrained(tk.c, tk.num))
    case TReturnToken =>
      s.(ticker := TReturned(tk.c), tokens := s.tokens + [NextSeqNum(tk.num)], owner := InQueue,
         h := s.h.(gen := s.h.gen + 1, returned := s.h.returned + {tk.c}))
    case TFire => s.(ticker := TIdle, h := s.h.(fired := s.h.fired + [(tk.c, None)]))
  }

  // onError, at this slot
  function DoSweep(s: Slot, a: SweepAction): Slot
    requires EnabledSweep(s, a)
  {
    var sw := s.sweep;
    match a
    case WRaise => s.(sweep := WRaised)
    case WLoadFlag => s.(sweep := if s.reg.isAsync then WAsync else WDone)
    case WLock => s.(reg := s.reg.(lock := BySweep), sweep := WLocked)
    case WDecide =>
      if s.reg.cmpl.Some?
      then s.(reg := s.reg.(cmpl := None), sweep := WTook(s.reg.cmpl.value), owner := AtSweep(s.reg.cmpl.value))
      else s.(sweep := WReject)
    case WZeroDeadline => s.(reg := s.reg.(deadline := 0), sweep := WDeadline(sw.c))
    case WLoad => s.(sweep := WLoaded(sw.c, s.reg.seqNum))
    case WClear => s.(reg := s.reg.(seqNum := 512_000_000), sweep := WCleared(sw.c, sw.num))
    case WUnflag => s.(reg := s.reg.(isAsync := false), sweep := WFlagged(sw.c, sw.num))
    case WUnlock => s.(reg := s.reg.(lock := Free), sweep := if sw.WFlagged? then WUnlocked(sw.c, sw.num) else WDone)
    case WReturnToken =>
      s.(sweep := WReturned(sw.c), tokens := s.tokens + [NextSeqNum(sw.num)], owner := InQueue,
         h := s.h.(gen := s.h.gen + 1, returned := s.h.returned + {sw.c}, swept := true))
    case WFire => s.(sweep := WDone, h := s.h.(fired := s.h.fired + [(sw.c, None)]))
  }
}
