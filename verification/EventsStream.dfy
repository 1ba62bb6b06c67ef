// The background goroutine of a stream (events/eventsstream.go) and the wait it
// does for the next event (events/eventshandler.go).

module EventsStreamLoop {
  import opened Wrappers
  import opened EventsSpec

  datatype Stop = ReadFailed | StreamError(err: string) | Closed

  function Flatten(chunks: seq<seq<EventWrapper>>): seq<EventWrapper> {
    if chunks == [] then [] else Flatten(chunks[..|chunks| - 1]) + chunks[|chunks| - 1]
  }

  function Limit<T>(s: seq<T>, n: nat): seq<T> {
    if n < |s| then s[..n] else s
  }

  // How handing over a run of events ends when `room` more sends can succeed.
  predicate Ends(events: seq<EventWrapper>, visible: EventWrapper -> bool, room: nat, sent: seq<Event>, why: Stop) {
    && sent == Limit(Deliverable(events, visible), room)
    && (why.Closed? <==> |Deliverable(events, visible)| > room)
    && (why.StreamError? <==> |Deliverable(events, visible)| <= room && HasVisibleError(events, visible))
  }

  // The loop over successive readEvents results; after the last of them readEvents
  // fails. `sends` is how many sends succeed before the stream is closed under it.
  method BgRoutine(chunks: seq<seq<EventWrapper>>, id: nat, sends: nat) returns (sent: seq<Event>, why: Stop)
    requires id < MAX_SUBS
    ensures Ends(Flatten(chunks), VisibleTo(id), sends, sent, why)
  {
    var visible := VisibleTo(id);
    sent := [];
    var r := 0;
    while r < |chunks|
      invariant r <= |chunks|
      invariant sent == Deliverable(Flatten(chunks[..r]), visible) && |sent| <= sends
      invariant !HasVisibleError(Flatten(chunks[..r]), visible)
    {
      var more;
      more, why := SendChunk(chunks[r], visible, sends - |sent|);
      if !why.ReadFailed? {
        FlattenSplit(chunks, r);
        StoppedIn(Flatten(chunks[..r]), chunks[r], Flatten(chunks[r + 1..]), visible, sends, sent, more, why);
        sent := sent + more;
        return;
      }
      FlattenNext(chunks, r);
      ReadThrough(Flatten(chunks[..r]), chunks[r], visible, sends, sent, more, why);
      sent := sent + more;
      r := r + 1;
    }
    assert chunks[..r] == chunks;
    why := ReadFailed;
  }

  lemma FlattenNext(chunks: seq<seq<EventWrapper>>, r: nat)
    requires r < |chunks|
    ensures Flatten(chunks[..r + 1]) == Flatten(chunks[..r]) + chunks[r]
  {
    assert chunks[..r + 1][..r] == chunks[..r];
  }

  lemma ReadThrough(
    before: seq<EventWrapper>, chunk: seq<EventWrapper>, visible: EventWrapper -> bool,
    sends: nat, sent: seq<Event>, more: seq<Event>, why: Stop)
    requires |sent| <= sends && sent == Deliverable(before, visible) && !HasVisibleError(before, visible)
    requires Ends(chunk, visible, sends - |sent|, more, why) && why.ReadFailed?
    ensures sent + more == Deliverable(before + chunk, visible) && |sent + more| <= sends
    ensures !HasVisibleError(before + chunk, visible)
  {
    DeliverableConcat(before, chunk, visible);
  }

  // What comes after the chunk in which the loop stopped makes no difference.
  lemma StoppedIn(
    before: seq<EventWrapper>, chunk: seq<EventWrapper>, after: seq<EventWrapper>, visible: EventWrapper -> bool,
    sends: nat, sent: seq<Event>, more: seq<Event>, why: Stop)
    requires |sent| <= sends && sent == Deliverable(before, visible) && !HasVisibleError(before, visible)
    requires Ends(chunk, visible, sends - |sent|, more, why) && !why.ReadFailed?
    ensures Ends(before + (chunk + after), visible, sends, sent + more, why)
  {
    DeliverableConcat(before, chunk + after, visible);
    DeliverableConcat(chunk, after, visible);
    var tail := Deliverable(chunk + after, visible);
    assert Limit(sent + tail, sends) == sent + Limit(tail, sends - |sent|);
  }

  // The inner loop; ReadFailed stands for "read on".
  method SendChunk(events: seq<EventWrapper>, visible: EventWrapper -> bool, room: nat) returns (sent: seq<Event>, why: Stop)
    ensures Ends(events, visible, room, sent, why)
  {
    sent := [];
    var i := 0;
    while i < |events|
      invariant i <= |events|
      invariant sent == Deliverable(events[..i], visible) && |sent| <= room
      invariant !HasVisibleError(events[..i], visible)
    {
      assert events[..i + 1] == events[..i] + [events[i]];
      DeliverableConcat(events[..i], [events[i]], visible);
      SingleEvent(events[i], visible);
      assert events == events[..i + 1] + events[i + 1..];
      DeliverableConcat(events[..i + 1], events[i + 1..], visible);
      if visible(events[i]) {
        if events[i].err.None? {
          if |sent| == room {
            return sent, Closed;
          }
          sent := sent + [events[i].ev];
        } else {
          return sent, StreamError(events[i].err.value);
        }
      }
      i := i + 1;
    }
    assert events[..i] == events;
    why := ReadFailed;
  }

  lemma SingleEvent(e: EventWrapper, visible: EventWrapper -> bool)
    ensures Deliverable([e], visible) == if visible(e) && e.err.None? then [e.ev] else []
    ensures HasVisibleError([e], visible) <==> visible(e) && e.err.Some?
  {
    assert [e][0] == e;
  }

  lemma {:induction false} FlattenSplit(chunks: seq<seq<EventWrapper>>, r: nat)
    requires r < |chunks|
    ensures Flatten(chunks) == Flatten(chunks[..r]) + (chunks[r] + Flatten(chunks[r + 1..]))
  {
    var last := |chunks| - 1;
    if r == last {
      assert chunks[r + 1..] == [];
    } else {
      FlattenSplit(chunks[..last], r);
      assert chunks[..last][..r] == chunks[..r];
      assert chunks[..last][r + 1..] == chunks[r + 1..][..last - r - 1];
      assert Flatten(chunks[r + 1..]) == Flatten(chunks[r + 1..last]) + chunks[last];
    }
  }

  // What the reads of stream `id` returned during a run, one read at a time.
  function ReadsOf(ops: seq<Op>, id: nat): seq<seq<EventWrapper>> {
    if ops == [] then [] else
      var before, last := ops[..|ops| - 1], ops[|ops| - 1];
      if last.OpRead? && last.id == id && CanRead(Run(before), id) then ReadsOf(before, id) + [Chunk(Run(before), id)]
      else if last.OpCreate? && FirstFree(Run(before).subs) == id then []
      else ReadsOf(before, id)
  }

  lemma {:induction false} ReadsFlatten(ops: seq<Op>, id: nat)
    ensures Flatten(ReadsOf(ops, id)) == Received(ops, id)
  {
    if ops != [] {
      ReadsFlatten(ops[..|ops| - 1], id);
    }
  }

  // End to end: what the goroutine sends when it runs over the reads of its stream, in
  // any run of the queue, are the visible events of the stream's slice of the log, in
  // order, each once, cut at the first visible error or when the stream is closed.
  lemma UserSeesFilteredLog(ops: seq<Op>, id: nat, sends: nat, sent: seq<Event>, why: Stop)
    requires id < MAX_SUBS && Live(Run(ops), id)
    requires Ends(Flatten(ReadsOf(ops, id)), VisibleTo(id), sends, sent, why)
    ensures var c := Run(ops).subs[id].value;
            c.start == CreationId(ops, id) && c.start <= c.next <= |Run(ops).log| &&
            Ends(Run(ops).log[c.start..c.next], VisibleTo(id), sends, sent, why)
  {
    ReadsFlatten(ops, id);
    ExactlyOnceDelivery(ops, id);
  }

  // The goroutine, run on the reads of its stream.
  method Serve(ops: seq<Op>, id: nat, sends: nat) returns (sent: seq<Event>, why: Stop)
    requires id < MAX_SUBS && Live(Run(ops), id)
    ensures var c := Run(ops).subs[id].value;
            c.start == CreationId(ops, id) && c.start <= c.next <= |Run(ops).log| &&
            Ends(Run(ops).log[c.start..c.next], VisibleTo(id), sends, sent, why)
  {
    sent, why := BgRoutine(ReadsOf(ops, id), id, sends);
    UserSeesFilteredLog(ops, id, sends, sent, why);
  }
}

// awaitEvent against pushEventToQueue and removeStream, one atomic step at a time. The
// reader gives up the queue locks before it is registered as a waiter, so a push or the
// removal of its stream can slip in between.
module EventsWait {
  datatype ReaderPc =
    | Checked     // holds the read locks, has seen nothing to read
    | Unlocked    // locks released, not yet counted
    | Counted     // counted in waitersCnt, not yet in Wait
    | Parked      // asleep in Wait
    | Woken       // out of Wait, still counted
    | Running     // about to lock and check again
    | Ended       // readEvents failed: the stream was closed

  datatype PusherPc = Idle | Pushed(notify: bool)

  // `others` streams besides the reader's are subscribed and `waiting` of their readers
  // are counted; `removing` holds the write locks and is about to call Broadcast. `missed`
  // is auxiliary: while the reader was between giving up the locks and falling asleep, a
  // push decided not to notify, or a push or a removal notified nobody.
  datatype State = State(
    unread: nat, removed: bool, others: nat, waiting: nat, waitersCnt: int,
    reader: ReaderPc, pusher: PusherPc, removing: bool, missed: bool)

  datatype Action =
    | Unlock | Count | Park | Uncount | Recheck
    | Push | Broadcast | Remove | RemoveOther | WakeAll
    | OtherSubscribes | OtherCounts | OtherUncounts

  function Start(others: nat): State { State(0, false, others, 0, 0, Checked, Idle, false, false) }

  predicate Enabled(s: State, a: Action) {
    match a
    case Unlock => s.reader.Checked?
    case Count => s.reader.Unlocked?
    case Park => s.reader.Counted?
    case Uncount => s.reader.Woken?
    case Recheck => s.reader.Running? && !s.removing
    case Push => s.pusher.Idle? && Writable(s)
    case Broadcast => s.pusher.Pushed?
    case Remove => !s.removed && Writable(s)
    case RemoveOther => s.others > 0 && Writable(s)
    case WakeAll => s.removing
    case OtherSubscribes => Writable(s)
    case OtherCounts => true
    case OtherUncounts => s.waiting > 0
  }

  // The write locks can be taken.
  predicate Writable(s: State) { !s.reader.Checked? && !s.removing }

  // readEvents has something to return.
  predicate Ready(s: State) { s.unread > 0 || s.removed }

  predicate Falling(s: State) { s.reader.Unlocked? || s.reader.Counted? }

  // Broadcast wakes those in Wait and nobody else.
  function Woke(s: State): State {
    if s.reader.Parked? then s.(reader := Woken, missed := false)
    else s.(missed := s.missed || (Falling(s) && Ready(s)))
  }

  function Do(s: State, a: Action): State
    requires Enabled(s, a)
  {
    match a
    case Unlock => s.(reader := Unlocked, missed := false)
    case Count => s.(reader := Counted, waitersCnt := s.waitersCnt + 1)
    case Park => s.(reader := Parked)
    case Uncount => s.(reader := Running, waitersCnt := s.waitersCnt - 1)
    case Recheck =>
      // returns what there is, and comes back for more
      if s.removed then s.(reader := Ended) else s.(reader := Checked, unread := 0)
    case Push =>
      // refused when nobody is subscribed
      if s.removed && s.others == 0 then s
      else
        var notify := s.waitersCnt > 0;
        s.(unread := s.unread + 1, pusher := Pushed(notify), missed := s.missed || (s.reader.Unlocked? && !notify))
    case Broadcast => if s.pusher.notify then Woke(s.(pusher := Idle)) else s.(pusher := Idle)
    case Remove => s.(removed := true, removing := true)
    case RemoveOther => s.(others := s.others - 1, removing := true)
    case WakeAll => Woke(s.(removing := false))
    case OtherSubscribes => s.(others := s.others + 1)
    case OtherCounts => s.(waiting := s.waiting + 1, waitersCnt := s.waitersCnt + 1)
    case OtherUncounts => s.(waiting := s.waiting - 1, waitersCnt := s.waitersCnt - 1)
  }

  predicate CanRun(s: State, todo: seq<Action>)
    decreases |todo|
  {
    todo == [] || (Enabled(s, todo[0]) && CanRun(Do(s, todo[0]), todo[1..]))
  }

  function Run(s: State, todo: seq<Action>): State
    requires CanRun(s, todo)
    decreases |todo|
  {
    if todo == [] then s else Run(Do(s, todo[0]), todo[1..])
  }

  // The reader sleeps although there is something to return and nobody is about to wake it.
  predicate Stuck(s: State) {
    s.reader.Parked? && Ready(s) && s.pusher.Idle? && !s.removing
  }

  ghost predicate Inv(s: State) {
    && s.waitersCnt == s.waiting + (if s.reader.Counted? || s.reader.Parked? || s.reader.Woken? then 1 else 0)
    && (s.reader.Checked? ==> !Ready(s) && !s.removing)
    && (Falling(s) || s.reader.Parked? ==>
          && (s.missed ==> Ready(s))
          && (Ready(s) ==> s.missed || s.pusher == Pushed(true) || s.removing))
  }

  lemma {:induction false} InvOfRun(s: State, todo: seq<Action>)
    requires Inv(s) && CanRun(s, todo)
    ensures Inv(Run(s, todo))
    decreases |todo|
  {
    if todo != [] {
      InvOfRun(Do(s, todo[0]), todo[1..]);
    }
  }

  // In every run, a reader that went to sleep stays asleep over an unread event or over
  // the closing of its stream exactly when a push or a removal fell into the window
  // before the sleep.
  lemma StuckExactlyWhenMissed(others: nat, todo: seq<Action>)
    requires CanRun(Start(others), todo)
    ensures var s := Run(Start(others), todo);
            s.reader.Parked? && s.pusher.Idle? && !s.removing ==> (Stuck(s) <==> s.missed)
  {
    InvOfRun(Start(others), todo);
  }

  // Over a closed stream it sleeps for ever, unless another stream is or gets subscribed.
  lemma {:induction false} ClosedSleepsForEver(s: State, todo: seq<Action>)
    requires Stuck(s) && s.removed && s.others == 0
    requires CanRun(s, todo) && OtherSubscribes !in todo
    ensures Stuck(Run(s, todo))
    decreases |todo|
  {
    if todo != [] {
      ClosedSleepsForEver(Do(s, todo[0]), todo[1..]);
    }
  }

  // Both can happen: the push sees no waiter and does not notify; the removal notifies
  // nobody.
  lemma WakeUpCanBeLost()
    ensures var todo := [Unlock, Push, Broadcast, Count, Park];
            CanRun(Start(0), todo) && Stuck(Run(Start(0), todo))
    ensures var todo := [Unlock, Remove, WakeAll, Count, Park];
            CanRun(Start(0), todo) && Stuck(Run(Start(0), todo)) && Run(Start(0), todo).removed
  {
    var s1 := Do(Start(0), Unlock);
    LostIn(s1, Push, Broadcast);
    LostIn(s1, Remove, WakeAll);
    RunOne(Start(0), Unlock, [Push, Broadcast, Count, Park]);
    RunOne(Start(0), Unlock, [Remove, WakeAll, Count, Park]);
  }

  lemma LostIn(s: State, a: Action, b: Action)
    requires s == Do(Start(0), Unlock) && ((a == Push && b == Broadcast) || (a == Remove && b == WakeAll))
    ensures CanRun(s, [a, b, Count, Park])
    ensures var t := Run(s, [a, b, Count, Park]); Stuck(t) && (a.Remove? ==> t.removed)
  {
    var s2 := Do(s, a);
    var s3 := Do(s2, b);
    RunOne(Do(s3, Count), Park, []);
    RunOne(s3, Count, [Park]);
    RunOne(s2, b, [Count, Park]);
    RunOne(s, a, [b, Count, Park]);
  }

  lemma RunOne(s: State, a: Action, rest: seq<Action>)
    requires Enabled(s, a) && CanRun(Do(s, a), rest)
    ensures CanRun(s, [a] + rest) && Run(s, [a] + rest) == Run(Do(s, a), rest)
  {
    assert ([a] + rest)[1..] == rest;
  }
}
