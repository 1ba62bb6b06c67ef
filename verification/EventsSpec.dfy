// Abstract view of the events fan-out (events/eventshandler.go): one append-only
// log of accepted events and, per stream id, an independent cursor.
// The class in EventsQueue.dfy refines these functions; here they are related to
// whole runs.

module EventsSpec {
  import opened Wrappers

  // kEventsPerNode is 1024; written out below to keep the arithmetic linear.
  const MAX_SUBS: nat := 32
  const ALL_STREAMS: bv32 := 0xFFFF_FFFF

  datatype Event = Event(namespace: string, kind: int)

  // An error travels through the queue as an event that carries the error.
  datatype EventWrapper = EventWrapper(ev: Event, err: Option<string>, streamsMask: bv32)

  // What parseEvent reads from a message.
  datatype Parsed = Parsed(ev: Event, streamsMask: bv32)

  // What pushEventToQueue queues: an error for every stream, or a parsed event.
  function Wrapped(e: Option<string>, parsed: Option<Parsed>): Option<EventWrapper> {
    if e.Some? then Some(EventWrapper(Event("", 0), e, ALL_STREAMS))
    else if parsed.Some? then Some(EventWrapper(parsed.value.ev, None, parsed.value.streamsMask))
    else None
  }

  // `start` is the id the stream was created at; `next` is its next event id.
  datatype Cursor = Cursor(start: nat, next: nat)

  datatype Queue = Queue(log: seq<EventWrapper>, subs: seq<Option<Cursor>>)

  function Initial(): Queue { Queue([], seq(MAX_SUBS, i => None)) }

  predicate Live(q: Queue, id: nat) {
    id < |q.subs| && q.subs[id].Some?
  }

  function LiveCount(subs: seq<Option<Cursor>>): nat {
    if subs == [] then 0 else (if subs[0].Some? then 1 else 0) + LiveCount(subs[1..])
  }

  // The number of live streams that still have to pass the node with index `node`.
  function Pending(subs: seq<Option<Cursor>>, node: nat): nat {
    if subs == [] then 0
    else (if subs[0].Some? && subs[0].value.next < 1024 * (node + 1) then 1 else 0) + Pending(subs[1..], node)
  }

  function FirstFree(subs: seq<Option<Cursor>>): (id: nat)
    ensures id <= |subs|
    ensures id < |subs| ==> subs[id].None?
    ensures forall k :: 0 <= k < id ==> subs[k].Some?
  {
    if subs == [] || subs[0].None? then 0 else 1 + FirstFree(subs[1..])
  }

  // An event is accepted only while somebody is subscribed.
  function Push(q: Queue, e: EventWrapper): Queue {
    if LiveCount(q.subs) == 0 then q else q.(log := q.log + [e])
  }

  function PushWrapped(q: Queue, e: Option<EventWrapper>): Queue { if e.Some? then Push(q, e.value) else q }

  function Create(q: Queue): Queue {
    var id := FirstFree(q.subs);
    if id == |q.subs| then q else q.(subs := q.subs[id := Some(Cursor(|q.log|, |q.log|))])
  }

  function Remove(q: Queue, id: nat): Queue {
    if Live(q, id) then q.(subs := q.subs[id := None]) else q
  }

  // One read returns what is left of the cursor's node.
  function ChunkEnd(q: Queue, id: nat): nat
    requires Live(q, id)
  {
    var nodeEnd := 1024 * (q.subs[id].value.next / 1024 + 1);
    if nodeEnd < |q.log| then nodeEnd else |q.log|
  }

  function Chunk(q: Queue, id: nat): seq<EventWrapper>
    requires Live(q, id) && q.subs[id].value.next < |q.log|
  {
    q.log[q.subs[id].value.next..ChunkEnd(q, id)]
  }

  predicate CanRead(q: Queue, id: nat) {
    Live(q, id) && q.subs[id].value.next < |q.log|
  }

  function Read(q: Queue, id: nat): Queue {
    if CanRead(q, id)
    then q.(subs := q.subs[id := Some(q.subs[id].value.(next := q.subs[id].value.next + |Chunk(q, id)|))])
    else q
  }

  // ---- whole runs ----

  datatype Op = OpPush(e: Option<string>, parsed: Option<Parsed>) | OpCreate | OpRemove(id: nat) | OpRead(id: nat)

  function Step(q: Queue, op: Op): Queue {
    match op
    case OpPush(e, parsed) => PushWrapped(q, Wrapped(e, parsed))
    case OpCreate => Create(q)
    case OpRemove(id) => Remove(q, id)
    case OpRead(id) => Read(q, id)
  }

  function Run(ops: seq<Op>): Queue {
    if ops == [] then Initial() else Step(Run(ops[..|ops| - 1]), ops[|ops| - 1])
  }

  // What the reads of stream `id` returned, in order, since the stream now
  // occupying that id was created.
  function Received(ops: seq<Op>, id: nat): seq<EventWrapper> {
    if ops == [] then [] else
      var before := ops[..|ops| - 1];
      var q := Run(before);
      var last := ops[|ops| - 1];
      if last.OpRead? && last.id == id && CanRead(q, id) then Received(before, id) + Chunk(q, id)
      else if last.OpCreate? && FirstFree(q.subs) == id then []
      else Received(before, id)
  }

  // The accepted-event count at the moment the stream now at `id` was created.
  function CreationId(ops: seq<Op>, id: nat): nat {
    if ops == [] then 0 else
      var before := ops[..|ops| - 1];
      var q := Run(before);
      if ops[|ops| - 1].OpCreate? && FirstFree(q.subs) == id then |q.log| else CreationId(before, id)
  }

  // What one step does to the cursor of a stream that is live after it.
  lemma StepCursor(q: Queue, op: Op, id: nat)
    requires Live(Step(q, op), id)
    ensures q.log <= Step(q, op).log
    ensures if op.OpCreate? && FirstFree(q.subs) == id
            then Step(q, op).subs[id] == Some(Cursor(|q.log|, |q.log|))
            else Live(q, id) &&
                 Step(q, op).subs[id] ==
                 if op.OpRead? && op.id == id && CanRead(q, id)
                 then Some(Cursor(q.subs[id].value.start, q.subs[id].value.next + |Chunk(q, id)|))
                 else q.subs[id]
  {
  }

  lemma ChunkExtends(q: Queue, id: nat, start: nat)
    requires CanRead(q, id) && start <= q.subs[id].value.next
    ensures q.log[start..q.subs[id].value.next] + Chunk(q, id) == q.log[start..q.subs[id].value.next + |Chunk(q, id)|]
  {
  }

  // Exactly-once, ordered delivery over every interleaving of the four operations.
  lemma {:induction false} ExactlyOnceDelivery(ops: seq<Op>, id: nat)
    requires Live(Run(ops), id)
    ensures var c := Run(ops).subs[id].value;
            c.start == CreationId(ops, id) && c.start <= c.next <= |Run(ops).log| &&
            Received(ops, id) == Run(ops).log[c.start..c.next]
  {
    if ops != [] {
      var before, last := ops[..|ops| - 1], ops[|ops| - 1];
      var q := Run(before);
      StepCursor(q, last, id);
      if !(last.OpCreate? && FirstFree(q.subs) == id) {
        ExactlyOnceDelivery(before, id);
        var c := q.subs[id].value;
        assert Step(q, last).log[c.start..c.next] == q.log[c.start..c.next];
        if last.OpRead? && last.id == id && CanRead(q, id) {
          ChunkExtends(q, id, c.start);
        }
      }
    }
  }

  // Nothing a reader does can take an event away from the log or reorder it.
  lemma {:induction false} LogOnlyGrows(before: seq<Op>, after: seq<Op>)
    ensures Run(before).log <= Run(before + after).log
  {
    if after == [] {
      assert before + after == before;
    } else {
      var most := after[..|after| - 1];
      LogOnlyGrows(before, most);
      assert (before + after)[..|before + after| - 1] == before + most;
    }
  }

  // ---- the background goroutine of a stream (events/eventsstream.go) ----

  predicate Visible(e: EventWrapper, id: nat)
    requires id < MAX_SUBS
  {
    (e.streamsMask & ((1 as bv32) << (id as bv32))) > 0
  }

  function VisibleTo(id: nat): EventWrapper -> bool
    requires id < MAX_SUBS
  {
    e => Visible(e, id)
  }

  // What a stream should hand to its user for a run of events: those visible to
  // it, up to (not including) the first one of them that carries an error.
  function Deliverable(events: seq<EventWrapper>, visible: EventWrapper -> bool): seq<Event> {
    if events == [] then []
    else if !visible(events[0]) then Deliverable(events[1..], visible)
    else if events[0].err.Some? then []
    else [events[0].ev] + Deliverable(events[1..], visible)
  }

  predicate HasVisibleError(events: seq<EventWrapper>, visible: EventWrapper -> bool) {
    exists i :: 0 <= i < |events| && visible(events[i]) && events[i].err.Some?
  }

  // Working chunk by chunk is the same as working on the whole log slice.
  lemma {:induction false} DeliverableConcat(a: seq<EventWrapper>, b: seq<EventWrapper>, visible: EventWrapper -> bool)
    ensures Deliverable(a + b, visible) ==
            if HasVisibleError(a, visible) then Deliverable(a, visible)
            else Deliverable(a, visible) + Deliverable(b, visible)
    ensures HasVisibleError(a + b, visible) <==> HasVisibleError(a, visible) || HasVisibleError(b, visible)
  {
    if a == [] {
      assert a + b == b;
    } else {
      assert (a + b)[1..] == a[1..] + b;
      DeliverableConcat(a[1..], b, visible);
      HasVisibleErrorHead(a, visible);
      HasVisibleErrorHead(a + b, visible);
    }
  }

  lemma HasVisibleErrorHead(a: seq<EventWrapper>, visible: EventWrapper -> bool)
    requires a != []
    ensures HasVisibleError(a, visible) <==> (visible(a[0]) && a[0].err.Some?) || HasVisibleError(a[1..], visible)
  {
    if HasVisibleError(a[1..], visible) {
      var i :| 0 <= i < |a[1..]| && visible(a[1..][i]) && a[1..][i].err.Some?;
      assert a[i + 1] == a[1..][i];
    }
    if HasVisibleError(a, visible) {
      var i :| 0 <= i < |a| && visible(a[i]) && a[i].err.Some?;
      assert i > 0 ==> a[1..][i - 1] == a[i];
    }
  }

  // Whatever was pushed: every stream sees every error in the log.
  lemma {:induction false} ErrorsReachEveryStream(ops: seq<Op>, i: nat, id: nat)
    requires id < MAX_SUBS && i < |Run(ops).log| && Run(ops).log[i].err.Some?
    ensures Visible(Run(ops).log[i], id)
  {
    if i < |Run(ops[..|ops| - 1]).log| {
      LogOnlyGrows(ops[..|ops| - 1], ops[|ops| - 1..]);
      assert ops == ops[..|ops| - 1] + ops[|ops| - 1..];
      ErrorsReachEveryStream(ops[..|ops| - 1], i, id);
    } else {
      BitBelowAll((1 as bv32) << (id as bv32));
      ShiftedBitNonZero(id);
    }
  }

  lemma BitBelowAll(b: bv32)
    ensures ALL_STREAMS & b == b
  {
  }

  lemma ShiftedBitNonZero(id: nat)
    requires id < MAX_SUBS
    ensures (1 as bv32) << (id as bv32) > 0
  {
    var s: bv32 := id as bv32;
    assert s < 32;
    assert (1 as bv32) << s > 0;
  }
}
