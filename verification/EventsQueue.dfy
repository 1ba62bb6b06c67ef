// The node queue of events/eventshandler.go as it is updated in place: a linked
// list of 1024-slot nodes with reference counts, read by independent cursors.
// Every method is one critical section of the source.

module EventsQueue {
  import opened Wrappers
  import opened EventsSpec

  // The user-facing handle; here only its identity and its id matter.
  class EventsStream {
    const id: int

    constructor (id: int)
      ensures this.id == id
    {
      this.id := id;
    }
  }

  class EventsQueueNode {
    var events: seq<EventWrapper>   // the 1024 slots
    const firstID: int
    var cnt: int
    var next: EventsQueueNode?
    var prev: EventsQueueNode?
    var refs: int

    constructor (firstID: int, first: EventWrapper)
      ensures |events| == 1024 && events[0] == first
      ensures this.firstID == firstID && cnt == 1 && next == null && prev == null && refs == 0
    {
      this.firstID := firstID;
      cnt, next, prev, refs := 1, null, null, 0;
      events := seq(1024, _ => first);
    }
  }

  class StreamState {
    var nextUpdateID: int
    var node: EventsQueueNode?
    const s: EventsStream
    var removed: bool

    constructor (nextUpdateID: int, node: EventsQueueNode?, s: EventsStream)
      ensures this.nextUpdateID == nextUpdateID && this.node == node && this.s == s && !removed
    {
      this.nextUpdateID, this.node, this.s, this.removed := nextUpdateID, node, s, false;
    }
  }

  datatype ReadResult =
    | Slice(events: seq<EventWrapper>)
    | MustWait
    | StreamNotFound
    | WrongStreamPointer
    | BadStreamId
    | StreamWasClosed
    | InvalidNextEventId

  datatype CreateResult = Created(stream: EventsStream) | TooManyStreams | SubscribeFailed

  datatype RemoveResult = Removed | WrongPointer | BadId | NotFound

  class EventsHandler {
    const streams: array<StreamState?>
    var subsCnt: int
    var nextEventID: int
    var tail: EventsQueueNode?

    ghost var q: Queue                      // the abstract state this object implements
    ghost var nodes: seq<EventsQueueNode>   // every node ever linked, oldest first
    ghost var view: seq<NodeView>           // their field values
    ghost var Repr: set<object>

    // ---- invariant ----

    ghost predicate Owned()
      reads this, Repr
    {
      && this in Repr && streams in Repr && streams.Length == MAX_SUBS
      && |nodes| == |view|
      && (forall i :: 0 <= i < |nodes| ==> nodes[i] in Repr)
      && (forall i, j :: 0 <= i < j < |nodes| ==> nodes[i] != nodes[j])
      && (forall k :: 0 <= k < MAX_SUBS && streams[k] != null ==> streams[k] in Repr)
      && (forall k, l :: 0 <= k < l < MAX_SUBS && streams[k] != null ==> streams[k] != streams[l])
    }

    // The heap node `i` holds exactly the values in view[i].
    ghost predicate NodeOk(i: int)
      requires Owned() && 0 <= i < |nodes|
      reads this, Repr
    {
      var n, v := nodes[i], view[i];
      && n.firstID == 1024 * i
      && n.cnt == |v.events| <= 1024 == |n.events|
      && n.refs == v.refs
      && n.next == (if v.next && i < |nodes| - 1 then nodes[i + 1] else null)
      && n.prev == (if v.prev && i > 0 then nodes[i - 1] else null)
      && n.events[..n.cnt] == v.events
    }

    ghost predicate Reading(k: int)
      requires 0 <= k < MAX_SUBS == |q.subs| && Owned() && streams[k] != null
      reads this, Repr
    {
      && q.subs[k].Some?
      && streams[k].nextUpdateID == q.subs[k].value.next
      && streams[k].s.id == k && !streams[k].removed
      && (streams[k].node != null ==>
            var n := q.subs[k].value.next / 1024; n < |nodes| && streams[k].node == nodes[n])
    }

    // The heap agrees with the ghost view, whatever the view says.
    ghost predicate Noded()
      reads this, Repr
    {
      && Owned()
      && tail == (if nodes == [] then null else nodes[|nodes| - 1])
      && (forall i :: 0 <= i < |nodes| ==> NodeOk(i))
    }

    ghost predicate Subscribed()
      reads this, Repr
    {
      && Owned() && |q.subs| == MAX_SUBS
      && subsCnt == LiveCount(q.subs)
      && (forall k :: 0 <= k < MAX_SUBS ==> (streams[k] != null <==> q.subs[k].Some?))
      && (forall k :: 0 <= k < MAX_SUBS && streams[k] != null ==> Reading(k))
    }

    ghost predicate Valid()
      reads this, Repr
    {
      Noded() && Subscribed() && nextEventID == |q.log| && Stored(q, view)
    }

    constructor ()
      ensures Valid() && fresh(Repr) && q == Initial()
    {
      streams := new StreamState?[MAX_SUBS](_ => null);
      subsCnt, nextEventID, tail := 0, 0, null;
      q, nodes, view := Initial(), [], [];
      new;
      Repr := {this, streams};
      StoredInitial();
    }

    // pushEventToQueue. `parsed` is None when the event could not be parsed, in which
    // case nothing is queued and the parse error is returned.
    method PushEventToQueue(e: Option<string>, parsed: Option<Parsed>) returns (ok: bool)
      requires Valid()
      modifies Repr
      ensures Valid() && fresh(Repr - old(Repr))
      ensures ok == (e.Some? || parsed.Some?)
      ensures q == Step(old(q), OpPush(e, parsed))
    {
      var event: EventWrapper;
      if e.Some? {
        event := EventWrapper(Event("", 0), e, 0xFFFF_FFFF);
      } else {
        if parsed.None? { return false; }
        event := EventWrapper(parsed.value.ev, None, parsed.value.streamsMask);
      }
      if nextEventID % 1024 != 0 {
        AppendToTail(event);
      } else {
        LinkNewNode(event);
      }
      return true;
    }

    method AppendToTail(e: EventWrapper)
      requires Valid() && nextEventID % 1024 != 0
      modifies Repr
      ensures Valid() && Repr == old(Repr)
      ensures q == Push(old(q), e)
    {
      assert NodeOk(|nodes| - 1) && ViewOk(q, view, |nodes| - 1);
      Store(e);
      if subsCnt != 0 {
        view := view[|view| - 1 := view[|view| - 1].(events := view[|view| - 1].events + [e])];
        q := Push(q, e);
      }
      ValidAfterStore(e);
    }

    // Fill the next slot of the tail; the slot only counts if somebody is subscribed.
    method Store(e: EventWrapper)
      requires tail != null && 0 <= tail.cnt < |tail.events|
      modifies this`nextEventID, tail`cnt, tail`events
      ensures tail.events == old(tail.events[tail.cnt := e])
      ensures nextEventID == old(nextEventID) + (if subsCnt != 0 then 1 else 0)
      ensures tail.cnt == old(tail.cnt) + (if subsCnt != 0 then 1 else 0)
    {
      var node := tail;
      node.events := node.events[node.cnt := e];
      if subsCnt != 0 {
        node.cnt := node.cnt + 1;
        nextEventID := nextEventID + 1;
      }
    }

    twostate lemma ValidAfterStore(e: EventWrapper)
      requires old(Valid()) && old(nextEventID) % 1024 != 0 && old(tail) != null && 0 <= old(tail.cnt) < 1024 == |old(tail.events)|
      requires unchanged(this`Repr, this`subsCnt, this`tail, this`nodes, streams) && q == Push(old(q), e) && nextEventID == |q.log|
      requires var last := |old(view)| - 1;
               view == if subsCnt == 0 then old(view) else old(view)[last := old(view)[last].(events := old(view)[last].events + [e])]
      requires forall k :: 0 <= k < MAX_SUBS && streams[k] != null ==> unchanged(streams[k])
      requires forall i :: 0 <= i < |nodes| - 1 ==> unchanged(nodes[i])
      requires unchanged(tail`next, tail`prev, tail`refs) && tail.events == old(tail.events[tail.cnt := e])
      requires tail.cnt == old(tail.cnt) + (if subsCnt != 0 then 1 else 0)
      ensures Valid()
    {
      if subsCnt != 0 { StoredAppend(old(q), old(view), e); }
      forall i | 0 <= i < |nodes| ensures NodeOk(i) {
        assert old(NodeOk(i));
      }
    }

    method LinkNewNode(e: EventWrapper)
      requires Valid() && nextEventID % 1024 == 0
      modifies Repr
      ensures Valid() && fresh(Repr - old(Repr))
      ensures q == Push(old(q), e)
    {
      if subsCnt == 0 { return; }
      var node := new EventsQueueNode(nextEventID, e);
      assert nodes != [] ==> NodeOk(|nodes| - 1);
      Attach(node);
      nodes, view, q := nodes + [node], LinkView(view, subsCnt, e), Push(q, e);
      Repr := Repr + {node};
      ValidAfterLink(node, e);
    }

    // Link a new tail; the old tail gets a link to it only while somebody needs it.
    method Attach(node: EventsQueueNode)
      requires node != tail
      modifies this`tail, this`nextEventID, node`refs, node`prev, (if tail == null then {} else {tail})`next
      ensures tail == node && nextEventID == old(nextEventID) + 1 && node.refs == subsCnt
      ensures old(tail) != null ==> old(tail).next == if old(tail.refs) != 0 then node else old(tail.next)
      ensures node.prev == if old(tail) != null && old(tail.refs) != 0 then old(tail) else old(node.prev)
    {
      node.refs := subsCnt;
      if tail != null {
        if tail.refs != 0 {
          tail.next := node;
          node.prev := tail;
        }
      }
      tail := node;
      nextEventID := nextEventID + 1;
    }

    twostate lemma ValidAfterLink(new node: EventsQueueNode, e: EventWrapper)
      requires old(Valid()) && old(subsCnt) > 0 && old(nextEventID) % 1024 == 0
      requires node !in old(Repr) && Repr == old(Repr) + {node}
      requires unchanged(this`subsCnt, streams) && nextEventID == old(nextEventID) + 1 && tail == node
      requires nodes == old(nodes) + [node] && view == LinkView(old(view), old(subsCnt), e) && q == Push(old(q), e)
      requires forall k :: 0 <= k < MAX_SUBS && streams[k] != null ==> unchanged(streams[k])
      requires forall i :: 0 <= i < |nodes| - 2 ==> unchanged(nodes[i])
      requires old(tail) != null ==>
                 var t := old(tail);
                 unchanged(t`cnt, t`refs, t`prev, t`events) &&
                 t.next == (if t.refs != 0 then node else old(t.next))
      requires node.firstID == old(nextEventID) && node.refs == old(subsCnt) && node.cnt == 1 && node.next == null
      requires |node.events| == 1024 && node.events[0] == e
      requires node.prev == (if old(tail) != null && old(tail).refs != 0 then old(tail) else null)
      ensures Valid()
    {
      StoredLink(old(q), old(view), e);
      var last := |nodes| - 2;
      assert last >= 0 ==> old(NodeOk(last)) && old(ViewOk(q, view, last));
      forall i | 0 <= i < |nodes| ensures NodeOk(i) {
        if i <= last {
          assert old(NodeOk(i));
        }
      }
    }

    // createStream, from the search for a free id on. `subscribed` is the outcome of
    // the binding's Subscribe call.
    method CreateStream(subscribed: bool) returns (r: CreateResult)
      requires Valid()
      modifies Repr
      ensures Valid() && fresh(Repr - old(Repr))
      ensures r.TooManyStreams? <==> FirstFree(old(q.subs)) == MAX_SUBS
      ensures r.SubscribeFailed? <==> FirstFree(old(q.subs)) < MAX_SUBS && !subscribed
      ensures r.Created? ==> fresh(r.stream) && r.stream.id == FirstFree(old(q.subs))
      ensures r.Created? ==> streams[r.stream.id] != null && streams[r.stream.id].s == r.stream
      ensures q == if r.Created? then Create(old(q)) else old(q)
    {
      var id := FindFreeId();
      if id == MAX_SUBS { return TooManyStreams; }
      if !subscribed { return SubscribeFailed; }
      var stream := Subscribe(id);
      r := Created(stream);
    }

    method Subscribe(id: nat) returns (stream: EventsStream)
      requires Valid() && id == FirstFree(q.subs) < MAX_SUBS
      modifies Repr
      ensures Valid() && fresh(Repr - old(Repr))
      ensures fresh(stream) && stream.id == id && streams[id] != null && streams[id].s == stream
      ensures q == Create(old(q))
    {
      stream := new EventsStream(id);
      var st := NewState(stream);
      Enroll(id, st);
    }

    method Enroll(id: nat, st: StreamState)
      requires Valid() && id == FirstFree(q.subs) < MAX_SUBS
      requires st !in Repr && st.nextUpdateID == nextEventID && st.s.id == id && !st.removed
      requires st.node == if tail != null && tail.cnt == 1024 then null else tail
      modifies Repr
      ensures Valid() && Repr == old(Repr) + {st}
      ensures streams[id] == st && q == Create(old(q))
    {
      TailThere();
      Register(id, st);
      Repr := Repr + {st};
      view, q := CreateView(view, |q.log|), Create(q);
      ValidAfterCreate(id, st);
    }

    lemma TailThere()
      requires Valid()
      ensures nextEventID % 1024 != 0 ==> tail != null
    {
      assert nodes != [] ==> NodeOk(|nodes| - 1) && ViewOk(q, view, |nodes| - 1);
    }

    // The cursor starts at the tail while that has room, and unresolved otherwise.
    method NewState(stream: EventsStream) returns (st: StreamState)
      ensures fresh(st) && st.nextUpdateID == nextEventID && st.s == stream && !st.removed
      ensures st.node == if tail != null && tail.cnt == 1024 then null else tail
    {
      var nextNode := tail;
      if nextNode != null && nextNode.cnt == 1024 {
        nextNode := null;
      }
      st := new StreamState(nextEventID, nextNode, stream);
    }

    method FindFreeId() returns (id: nat)
      requires Valid()
      ensures id == FirstFree(q.subs)
    {
      id := 0;
      while id < MAX_SUBS && streams[id] != null
        invariant id <= MAX_SUBS
        invariant forall k :: 0 <= k < id ==> q.subs[k].Some?
      {
        id := id + 1;
      }
      FirstFreeIs(q.subs, id);
    }

    method Register(id: nat, st: StreamState)
      requires id < streams.Length && (nextEventID % 1024 != 0 ==> tail != null)
      modifies this`subsCnt, streams, (if tail == null then {} else {tail})`refs
      ensures streams[..] == old(streams[..])[id := st] && subsCnt == old(subsCnt) + 1
      ensures tail != null ==> tail.refs == old(tail.refs) + if nextEventID % 1024 != 0 then 1 else 0
    {
      streams[id] := st;
      if nextEventID % 1024 != 0 {
        tail.refs := tail.refs + 1;
      }
      subsCnt := subsCnt + 1;
    }

    twostate lemma ValidAfterCreate(id: nat, new st: StreamState)
      requires old(Valid()) && id == FirstFree(old(q.subs)) < MAX_SUBS
      requires st !in old(Repr) && Repr == old(Repr) + {st}
      requires unchanged(this`nodes, this`tail, this`nextEventID)
      requires view == CreateView(old(view), |old(q.log)|) && q == Create(old(q))
      requires streams[..] == old(streams[..])[id := st] && subsCnt == old(subsCnt) + 1
      requires forall k :: 0 <= k < MAX_SUBS && k != id && streams[k] != null ==> unchanged(streams[k])
      requires forall i :: 0 <= i < |nodes| - 1 ==> unchanged(nodes[i])
      requires tail != null ==> unchanged(tail`cnt, tail`next, tail`prev, tail`events) &&
                                tail.refs == old(tail.refs) + if nextEventID % 1024 != 0 then 1 else 0
      requires st.nextUpdateID == nextEventID && !st.removed && st.s.id == id
      requires st.node == if tail != null && tail.cnt == 1024 then null else tail
      ensures Valid()
    {
      StoredCreate(old(q), old(view));
      LiveCountUpdate(old(q.subs), id, q.subs[id]);
      forall k | 0 <= k < MAX_SUBS ensures streams[k] == old(streams[..])[id := st][k] {
        assert streams[k] == streams[..][k];
      }
      forall i | 0 <= i < |nodes| ensures NodeOk(i) {
        assert old(NodeOk(i)) && old(ViewOk(q, view, i));
      }
      if tail != null {
        TailIndex(old(q), old(view));
        assert old(NodeOk(|nodes| - 1));
      }
      assert st.node != null ==> |q.log| / 1024 == |nodes| - 1;
      assert Reading(id);
      forall k | 0 <= k < MAX_SUBS && streams[k] != null ensures Reading(k) {
        assert k != id ==> old(Reading(k));
      }
    }

    // removeRef: give up one reference and step to the next node. The last reference
    // cuts the link that leads back into the node.
    method RemoveRef(node: EventsQueueNode) returns (r: EventsQueueNode?)
      modifies node`refs, (if node.next == null then {} else {node.next})`prev
      ensures node.refs == old(node.refs) - 1 && r == node.next
      ensures r != null ==> r.prev == if node.refs == 0 then null else old(r.prev)
    {
      node.refs := node.refs - 1;
      var refs := node.refs;
      r := node.next;
      if refs == 0 {
        if r != null {
          r.prev := null;
        }
      }
    }

    ghost function NodeSet(): set<EventsQueueNode>
      reads this
    {
      set n | n in nodes
    }

    twostate lemma NodedAfterDrop(i: int)
      requires old(Noded()) && 0 <= i < old(|nodes|)
      requires unchanged(this`Repr, this`nodes, this`tail, streams) && view == DropRef(old(view), i)
      requires forall j :: 0 <= j < |nodes| && j != i && j != i + 1 ==> unchanged(nodes[j])
      requires var n: EventsQueueNode := nodes[i];
               unchanged(n`cnt, n`next, n`prev, n`events) && n.refs == old(n.refs) - 1
      requires i + 1 < |nodes| ==>
                 var n: EventsQueueNode := nodes[i + 1];
                 unchanged(n`cnt, n`next, n`refs, n`events) &&
                 n.prev == if nodes[i].refs == 0 && nodes[i].next != null then null else old(n.prev)
      ensures Noded()
    {
      forall j | 0 <= j < |nodes| ensures NodeOk(j) {
        assert old(NodeOk(j)) && old(NodeOk(i));
      }
    }

    // One step of a cursor over node i, references included.
    method StepOver(s: StreamState, ghost i: nat)
      requires Noded() && i < |nodes| && s.node == nodes[i] && view[i].refs > 0
      requires i < |view| - 1 ==> view[i].next
      modifies this`view, s`node, NodeSet()
      ensures Noded() && view == DropRef(old(view), i)
      ensures s.node == if i < |nodes| - 1 then nodes[i + 1] else null
    {
      assert NodeOk(i);
      s.node := RemoveRef(s.node);
      view := DropRef(view, i);
      NodedAfterDrop(i);
    }

    // The loop of removeStream: drop the reference on every node still ahead.
    method DropAll(s: StreamState, ghost from: nat)
      requires Noded() && from < |nodes| && s.node == nodes[from]
      requires forall j :: from <= j < |view| ==> view[j].refs > 0
      requires forall j :: from <= j < |view| - 1 ==> view[j].next
      modifies this`view, s`node, NodeSet()
      ensures Noded() && DroppedTo(old(view), view, from, |old(view)|)
      ensures s.node == null
    {
      ghost var i := from;
      while s.node != null
        invariant Noded() && from <= i <= |nodes|
        invariant s.node == if i < |nodes| then nodes[i] else null
        invariant DroppedTo(old(view), view, from, i)
        invariant i < |view| ==> view[i].refs > 0 && (i < |view| - 1 ==> view[i].next)
        decreases |nodes| - i
      {
        ghost var before := view;
        StepOver(s, i);
        DropOneMore(old(view), before, from, i);
        i := i + 1;
      }
    }

    // removeStream, from the look-up on; the outcome of Unsubscribe/Subscribe does not
    // change what happens to the queue.
    method RemoveStream(stream: EventsStream) returns (r: RemoveResult)
      requires Valid()
      modifies Repr
      ensures Valid() && Repr == old(Repr)
      ensures r.BadId? <==> !(0 <= stream.id < MAX_SUBS)
      ensures r.NotFound? <==> 0 <= stream.id < MAX_SUBS && old(streams[stream.id]) == null
      ensures r.WrongPointer? <==> 0 <= stream.id < MAX_SUBS && old(streams[stream.id]) != null && old(streams[stream.id].s) != stream
      ensures r.Removed? ==> Live(old(q), stream.id) && old(streams[stream.id]) != null && old(streams[stream.id]).removed
      ensures q == if r.Removed? then Remove(old(q), stream.id) else old(q)
    {
      if stream.id < 0 || stream.id >= MAX_SUBS { return BadId; }
      var s := streams[stream.id];
      if s == null { return NotFound; }
      if s.s != stream { return WrongPointer; }
      Unsubscribe(stream.id, s);
      r := Removed;
    }

    method Unsubscribe(id: nat, s: StreamState)
      requires Valid() && id < MAX_SUBS && s == streams[id]
      modifies Repr
      ensures Valid() && Repr == old(Repr)
      ensures s.removed && q == Remove(old(q), id)
    {
      assert Reading(id);
      NeededLinks(q, view, id);
      ghost var from := q.subs[id].value.next / 1024;
      Unregister(id);
      ReleaseNodes(s, from);
      Retire(s, id);
      ValidAfterRemove(id, s, from);
    }

    method Unregister(id: nat)
      requires Noded() && id < MAX_SUBS
      modifies streams
      ensures Noded() && streams[..] == old(streams[..])[id := null]
    {
      streams[id] := null;
      forall i | 0 <= i < |nodes| ensures NodeOk(i) {
        assert old(NodeOk(i));
      }
    }

    method Retire(s: StreamState, ghost id: nat)
      requires Noded()
      modifies this`subsCnt, this`q, s`removed
      ensures Noded() && s.removed && subsCnt == old(subsCnt) - 1 && q == Remove(old(q), id)
    {
      s.removed := true;
      subsCnt := subsCnt - 1;
      q := Remove(q, id);
      forall i | 0 <= i < |nodes| ensures NodeOk(i) {
        assert old(NodeOk(i));
      }
    }

    method ReleaseNodes(s: StreamState, ghost from: nat)
      requires Noded()
      requires s.node != null ==> from < |nodes| && s.node == nodes[from]
      requires forall j :: from <= j < |view| ==> view[j].refs > 0
      requires forall j :: from <= j < |view| - 1 ==> view[j].next
      modifies this`view, s`node, NodeSet()
      ensures Noded()
      ensures if old(s.node) == null then view == LeakView(old(view), from) else DroppedTo(old(view), view, from, |view|)
    {
      if s.node != null {
        DropAll(s, from);
      } else {
        view := LeakView(view, from);
        forall i | 0 <= i < |nodes| ensures NodeOk(i) {
          assert old(NodeOk(i));
        }
      }
    }

    twostate lemma ValidAfterRemove(id: nat, new s: StreamState, new from: nat)
      requires old(Valid()) && Live(old(q), id) && from == old(q).subs[id].value.next / 1024
      requires id < MAX_SUBS && old(streams[id]) == s && Noded()
      requires unchanged(this`Repr, this`nodes, this`nextEventID)
      requires streams[..] == old(streams[..])[id := null] && subsCnt == old(subsCnt) - 1 && q == Remove(old(q), id)
      requires DroppedTo(old(view), view, from, |view|) || view == LeakView(old(view), from)
      requires forall k :: 0 <= k < MAX_SUBS && streams[k] != null ==> unchanged(streams[k])
      ensures Valid()
    {
      assert old(Reading(id));
      StoredRemove(old(q), old(view), view, id);
      LiveCountUpdate(old(q.subs), id, None);
      forall k | 0 <= k < MAX_SUBS ensures streams[k] == old(streams[..])[id := null][k] {
        assert streams[k] == streams[..][k];
      }
      forall k | 0 <= k < MAX_SUBS && streams[k] != null ensures Reading(k) {
        assert old(Reading(k));
      }
    }

    // readEvents up to the wait: look the stream up, then read from its cursor.
    // The "invalid next event id" answer never comes out.
    method ReadEvents(stream: EventsStream) returns (r: ReadResult)
      requires Valid()
      modifies Repr
      ensures Valid() && Repr == old(Repr)
      ensures r.BadStreamId? <==> !(0 <= stream.id < MAX_SUBS)
      ensures r.StreamNotFound? <==> 0 <= stream.id < MAX_SUBS && old(streams[stream.id]) == null
      ensures r.WrongStreamPointer? <==> 0 <= stream.id < MAX_SUBS && old(streams[stream.id]) != null && old(streams[stream.id].s) != stream
      ensures !r.InvalidNextEventId? && !r.StreamWasClosed?
      ensures r.Slice? ==> CanRead(old(q), stream.id) && r.events == Chunk(old(q), stream.id)
      ensures r.MustWait? ==> Live(old(q), stream.id) && !CanRead(old(q), stream.id)
      ensures q == if r.Slice? then Read(old(q), stream.id) else old(q)
    {
      if stream.id < 0 || stream.id >= MAX_SUBS { return BadStreamId; }
      var s := streams[stream.id];
      if s == null { return StreamNotFound; }
      if s.s != stream { return WrongStreamPointer; }
      assert Reading(stream.id);
      r := ReadFrom(s);
    }

    // readEvents after a wait: the stream may have been removed meanwhile.
    method Resume(s: StreamState) returns (r: ReadResult)
      requires Valid()
      requires s.removed || (0 <= s.s.id < MAX_SUBS && streams[s.s.id] == s)
      modifies Repr
      ensures Valid() && Repr == old(Repr)
      ensures r.StreamWasClosed? <==> old(s.removed)
      ensures r.StreamWasClosed? || r.MustWait? || r.Slice?
      ensures r.Slice? ==> CanRead(old(q), s.s.id) && r.events == Chunk(old(q), s.s.id)
      ensures r.MustWait? ==> Live(old(q), s.s.id) && !CanRead(old(q), s.s.id)
      ensures q == if r.Slice? then Read(old(q), s.s.id) else old(q)
    {
      if s.removed { return StreamWasClosed; }
      assert Reading(s.s.id);
      r := ReadFrom(s);
    }

    method ReadFrom(s: StreamState) returns (r: ReadResult)
      requires Valid() && 0 <= s.s.id < MAX_SUBS && streams[s.s.id] == s
      modifies Repr
      ensures Valid() && Repr == old(Repr)
      ensures if CanRead(old(q), s.s.id)
              then r == Slice(Chunk(old(q), s.s.id)) && q == Read(old(q), s.s.id)
              else r == MustWait && q == old(q)
    {
      ghost var id := s.s.id;
      assert Reading(id);
      if s.nextUpdateID >= nextEventID { return MustWait; }
      ghost var n: nat := q.subs[id].value.next / 1024;
      NeededLinks(q, view, id);
      NodeOfCursor(q, view, id);
      var slice := Advance(s, n);
      label advanced:
      r := Slice(slice);
      q := Read(q, id);
      forall i | 0 <= i < |nodes| ensures NodeOk(i) {
        assert old@advanced(NodeOk(i));
      }
      ValidAfterRead(s, n);
    }

    method Advance(s: StreamState, ghost n: nat) returns (slice: seq<EventWrapper>)
      requires Noded() && n < |nodes| && 1024 * n <= s.nextUpdateID < 1024 * n + 1024
      requires s.node == null || s.node == nodes[n]
      requires s.nextUpdateID <= 1024 * n + |view[n].events|
      requires forall j :: n < j < |view| ==> view[j].prev
      requires view[n].refs > 0 && (n < |view| - 1 ==> view[n].next)
      modifies this`view, s`node, s`nextUpdateID, NodeSet()
      ensures Noded()
      ensures slice == old(view[n]).events[old(s.nextUpdateID) - 1024 * n..]
      ensures s.nextUpdateID == old(s.nextUpdateID) + |slice|
      ensures if |old(view[n]).events| == 1024
              then view == DropRef(old(view), n) && s.node == (if n < |nodes| - 1 then nodes[n + 1] else null)
              else view == old(view) && s.node == nodes[n]
    {
      Recover(s, n);
      forall i | 0 <= i < |nodes| ensures NodeOk(i) {
        assert old(NodeOk(i));
      }
      slice := TakeSlice(s, n);
    }

    // Find the node of an unresolved cursor by walking back from the tail.
    method Recover(s: StreamState, ghost n: nat)
      requires Noded() && n < |nodes| && 1024 * n <= s.nextUpdateID < 1024 * n + 1024
      requires s.node == null || s.node == nodes[n]
      requires forall j :: n < j < |view| ==> view[j].prev
      modifies s`node
      ensures s.node == nodes[n]
    {
      if s.node == null {
        s.node := tail;
        ghost var j := |nodes| - 1;
        while s.node != null && s.node.firstID > s.nextUpdateID
          invariant n <= j < |nodes| && s.node == nodes[j]
          invariant s.nextUpdateID == old(s.nextUpdateID)
          decreases j
        {
          assert old(NodeOk(j));
          s.node := s.node.prev;
          j := j - 1;
        }
        assert old(NodeOk(j));
      }
    }

    // Copy what is left of the node out and move the cursor, over the node's edge if
    // the node is full.
    method TakeSlice(s: StreamState, ghost n: nat) returns (slice: seq<EventWrapper>)
      requires Noded() && n < |nodes| && s.node == nodes[n] && 1024 * n <= s.nextUpdateID <= 1024 * n + |view[n].events|
      requires view[n].refs > 0 && (n < |view| - 1 ==> view[n].next)
      modifies this`view, s`node, s`nextUpdateID, NodeSet()
      ensures Noded()
      ensures slice == old(view[n]).events[old(s.nextUpdateID) - 1024 * n..]
      ensures s.nextUpdateID == old(s.nextUpdateID) + |slice|
      ensures if |old(view[n]).events| == 1024
              then view == DropRef(old(view), n) && s.node == (if n < |nodes| - 1 then nodes[n + 1] else null)
              else view == old(view) && s.node == nodes[n]
    {
      assert NodeOk(n);
      slice := s.node.events[s.nextUpdateID - s.node.firstID..s.node.cnt];
      s.nextUpdateID := s.nextUpdateID + |slice|;
      forall i | 0 <= i < |nodes| ensures NodeOk(i) {
        assert old(NodeOk(i));
      }
      if s.node.cnt == 1024 {
        StepOver(s, n);
      }
    }

    twostate lemma ValidAfterRead(s: StreamState, new n: nat)
      requires old(Valid()) && 0 <= s.s.id < MAX_SUBS && old(streams[s.s.id]) == s && Noded()
      requires CanRead(old(q), s.s.id) && n == old(q).subs[s.s.id].value.next / 1024 < |old(view)|
      requires unchanged(this`Repr, this`nodes, this`nextEventID, this`subsCnt, streams, s`removed) && q == Read(old(q), s.s.id)
      requires s.nextUpdateID == q.subs[s.s.id].value.next
      requires if |old(view)[n].events| == 1024
               then view == DropRef(old(view), n) && s.node == (if n < |nodes| - 1 then nodes[n + 1] else null)
               else view == old(view) && s.node == nodes[n]
      requires forall k :: 0 <= k < MAX_SUBS && k != s.s.id && streams[k] != null ==> unchanged(streams[k])
      ensures Valid()
    {
      var id: nat := s.s.id;
      assert old(Reading(id));
      StoredRead(old(q), old(view), view, id);
      NodeOfCursor(old(q), old(view), id);
      assert q.subs[id].value.next / 1024 == if |old(view)[n].events| == 1024 then n + 1 else n;
      LiveCountUpdate(old(q.subs), id, q.subs[id]);
      forall k | 0 <= k < MAX_SUBS && streams[k] != null ensures Reading(k) {
        assert old(Reading(k));
      }
    }
  }

  // ---- the invariant on values ----

  // The field values of a node: its stored events, its reference count, and whether
  // its links to its neighbours are in place. `leaked` counts references that no
  // live stream will ever drop.
  datatype NodeView = NodeView(events: seq<EventWrapper>, refs: int, next: bool, prev: bool, leaked: nat)

  // The nodes store exactly the accepted-event log. A node's count is the number of
  // live streams yet to pass it plus what was leaked; while that is positive both
  // links over the node's upper edge are in place.
  ghost predicate Stored(q: Queue, view: seq<NodeView>) {
    && |q.subs| == MAX_SUBS
    && (forall k :: 0 <= k < MAX_SUBS && q.subs[k].Some? ==> q.subs[k].value.start <= q.subs[k].value.next <= |q.log|)
    && 1024 * |view| - 1024 < |q.log| <= 1024 * |view|
    && (forall i :: 0 <= i < |view| ==> ViewOk(q, view, i))
  }

  ghost predicate ViewOk(q: Queue, view: seq<NodeView>, i: int)
    requires 0 <= i < |view| && 1024 * |view| - 1024 < |q.log| <= 1024 * |view|
  {
    && view[i].events == q.log[1024 * i..if i < |view| - 1 then 1024 * i + 1024 else |q.log|]
    && view[i].refs == Pending(q.subs, i) + view[i].leaked
    && (i < |view| - 1 && view[i].refs > 0 ==> view[i].next)
    && (i < |view| - 1 ==> view[i + 1].prev == (view[i].refs > 0))
    && (i == |view| - 1 ==> !view[i].next)
    && (i == 0 ==> !view[i].prev)
  }

  lemma StoredInitial()
    ensures Stored(Initial(), []) && LiveCount(Initial().subs) == 0
  {
    LiveCountZero(Initial().subs);
  }

  lemma TailIndex(q: Queue, view: seq<NodeView>)
    requires Stored(q, view) && view != []
    ensures |view[|view| - 1].events| < 1024 ==> |q.log| / 1024 == |view| - 1
  {
    var last := |view| - 1;
    assert ViewOk(q, view, last);
    assert |view[last].events| == |q.log| - 1024 * last;
  }

  lemma StoredAppend(q: Queue, view: seq<NodeView>, e: EventWrapper)
    requires Stored(q, view) && |q.log| % 1024 != 0 && LiveCount(q.subs) != 0
    ensures view != [] && Stored(Push(q, e), view[|view| - 1 := view[|view| - 1].(events := view[|view| - 1].events + [e])])
  {
    var last := |view| - 1;
    var view' := view[last := view[last].(events := view[last].events + [e])];
    var q' := Push(q, e);
    forall i | 0 <= i < |view'| ensures ViewOk(q', view', i) {
      assert ViewOk(q, view, i);
    }
  }

  function LinkView(view: seq<NodeView>, subsCnt: nat, e: EventWrapper): seq<NodeView> {
    if view != [] && view[|view| - 1].refs != 0
    then view[|view| - 1 := view[|view| - 1].(next := true)] + [NodeView([e], subsCnt, false, true, 0)]
    else view + [NodeView([e], subsCnt, false, false, 0)]
  }

  lemma StoredLink(q: Queue, view: seq<NodeView>, e: EventWrapper)
    requires Stored(q, view) && |q.log| % 1024 == 0 && LiveCount(q.subs) != 0
    ensures Stored(Push(q, e), LinkView(view, LiveCount(q.subs), e))
  {
    var q', view' := Push(q, e), LinkView(view, LiveCount(q.subs), e);
    assert |q.log| == 1024 * |view| && |q'.log| == |q.log| + 1 && |view'| == |view| + 1;
    forall i | 0 <= i < |view'| ensures ViewOk(q', view', i) {
      if i < |view| {
        OldNodeLinked(q, view, e, i);
      } else {
        NewNodeLinked(q, view, e);
      }
    }
  }

  lemma OldNodeLinked(q: Queue, view: seq<NodeView>, e: EventWrapper, i: nat)
    requires Stored(q, view) && |q.log| == 1024 * |view| && LiveCount(q.subs) != 0 && i < |view|
    ensures ViewOk(Push(q, e), LinkView(view, LiveCount(q.subs), e), i)
  {
    assert ViewOk(q, view, i);
    OldEvents(q.log, e, i, |view|);
  }

  lemma OldEvents(log: seq<EventWrapper>, e: EventWrapper, i: nat, nodes: nat)
    requires i < nodes && |log| == 1024 * nodes
    ensures log[1024 * i..if i < nodes - 1 then 1024 * i + 1024 else |log|] == (log + [e])[1024 * i..1024 * i + 1024]
    ensures log[1024 * i..if i < nodes - 1 then 1024 * i + 1024 else |log|] == log[1024 * i..1024 * i + 1024]
  {
  }

  lemma NewNodeLinked(q: Queue, view: seq<NodeView>, e: EventWrapper)
    requires Stored(q, view) && |q.log| == 1024 * |view| && LiveCount(q.subs) != 0
    ensures ViewOk(Push(q, e), LinkView(view, LiveCount(q.subs), e), |view|)
  {
    PendingOfNewNode(q.subs, |view|, |q.log|);
    assert (q.log + [e])[1024 * |view|..|q.log| + 1] == [e];
  }

  function CreateView(view: seq<NodeView>, logLen: nat): seq<NodeView> {
    if view == [] || logLen % 1024 == 0 then view
    else view[|view| - 1 := view[|view| - 1].(refs := view[|view| - 1].refs + 1)]
  }

  lemma StoredCreate(q: Queue, view: seq<NodeView>)
    requires Stored(q, view) && FirstFree(q.subs) < MAX_SUBS
    ensures Stored(Create(q), CreateView(view, |q.log|))
  {
    var q', view', id := Create(q), CreateView(view, |q.log|), FirstFree(q.subs);
    forall i | 0 <= i < |view'| ensures ViewOk(q', view', i) {
      assert ViewOk(q, view, i);
      PendingUpdate(q.subs, id, q'.subs[id], i);
    }
  }

  function Ahead(c: Option<Cursor>, node: nat): nat {
    if c.Some? && c.value.next < 1024 * (node + 1) then 1 else 0
  }

  lemma {:induction false} PendingUpdate(subs: seq<Option<Cursor>>, k: nat, c: Option<Cursor>, node: nat)
    requires k < |subs|
    ensures Pending(subs[k := c], node) == Pending(subs, node) - Ahead(subs[k], node) + Ahead(c, node)
    ensures Pending(subs, node) >= Ahead(subs[k], node)
  {
    if k > 0 {
      assert subs[k := c][1..] == subs[1..][k - 1 := c];
      PendingUpdate(subs[1..], k - 1, c, node);
    } else {
      assert subs[k := c][1..] == subs[1..];
    }
  }

  lemma {:induction false} LiveCountUpdate(subs: seq<Option<Cursor>>, k: nat, c: Option<Cursor>)
    requires k < |subs|
    ensures LiveCount(subs[k := c]) == LiveCount(subs) - (if subs[k].Some? then 1 else 0) + (if c.Some? then 1 else 0)
  {
    if k > 0 {
      assert subs[k := c][1..] == subs[1..][k - 1 := c];
      LiveCountUpdate(subs[1..], k - 1, c);
    } else {
      assert subs[k := c][1..] == subs[1..];
    }
  }

  lemma {:induction false} FirstFreeIs(subs: seq<Option<Cursor>>, id: nat)
    requires id <= |subs| && (id < |subs| ==> subs[id].None?) && forall k :: 0 <= k < id ==> subs[k].Some?
    ensures FirstFree(subs) == id
  {
  }

  // Give up one reference on node i; the last one cuts the link back into it.
  function DropRef(view: seq<NodeView>, i: nat): (r: seq<NodeView>)
    requires i < |view|
    ensures |r| == |view|
  {
    var dropped := view[i := view[i].(refs := view[i].refs - 1)];
    if i < |view| - 1 && view[i].refs == 1 && view[i].next
    then dropped[i + 1 := dropped[i + 1].(prev := false)]
    else dropped
  }

  // Dropping nodes from..to cuts the link from node j back to node j - 1.
  ghost predicate Cut(before: seq<NodeView>, from: nat, to: nat, j: int)
    requires 0 <= j < |before|
  {
    from < j <= to && before[j - 1].refs == 1 && before[j - 1].next
  }

  // after is before with the references on nodes from..to given up.
  ghost predicate DroppedTo(before: seq<NodeView>, after: seq<NodeView>, from: nat, to: nat) {
    && |after| == |before|
    && (forall j :: 0 <= j < |before| ==>
          after[j] == before[j].(refs := before[j].refs - (if from <= j < to then 1 else 0),
                                 prev := before[j].prev && !Cut(before, from, to, j)))
  }

  lemma DropOneMore(first: seq<NodeView>, before: seq<NodeView>, from: nat, i: nat)
    requires from <= i < |before| && DroppedTo(first, before, from, i)
    ensures DroppedTo(first, DropRef(before, i), from, i + 1)
  {
  }

  // A stream removed before its cursor was ever resolved gives nothing back.
  function LeakView(view: seq<NodeView>, from: nat): (r: seq<NodeView>)
    ensures |r| == |view|
    ensures forall j :: 0 <= j < |view| ==> r[j] == if j < from then view[j] else view[j].(leaked := view[j].leaked + 1)
  {
    seq(|view|, j requires 0 <= j < |view| => if j < from then view[j] else view[j].(leaked := view[j].leaked + 1))
  }

  // Every node a live stream still needs is counted and reachable in both directions.
  lemma NeededLinks(q: Queue, view: seq<NodeView>, id: nat)
    requires Stored(q, view) && Live(q, id)
    ensures forall j :: q.subs[id].value.next / 1024 <= j < |view| ==> view[j].refs > 0
    ensures forall j :: q.subs[id].value.next / 1024 <= j < |view| - 1 ==> view[j].next
    ensures forall j :: q.subs[id].value.next / 1024 < j < |view| ==> view[j].prev
  {
    forall j | q.subs[id].value.next / 1024 <= j < |view|
      ensures view[j].refs > 0
    {
      assert ViewOk(q, view, j);
      PendingUpdate(q.subs, id, None, j);
    }
    forall j | q.subs[id].value.next / 1024 <= j < |view| - 1 ensures view[j].next {
      assert ViewOk(q, view, j);
    }
    forall j | q.subs[id].value.next / 1024 < j < |view| ensures view[j].prev {
      assert view[j - 1].refs > 0 && ViewOk(q, view, j - 1);
    }
  }

  lemma StoredRemove(q: Queue, view: seq<NodeView>, view': seq<NodeView>, id: nat)
    requires Stored(q, view) && Live(q, id)
    requires var from := q.subs[id].value.next / 1024;
             DroppedTo(view, view', from, |view|) || view' == LeakView(view, from)
    ensures Stored(Remove(q, id), view')
  {
    NeededLinks(q, view, id);
    forall i | 0 <= i < |view'| ensures ViewOk(Remove(q, id), view', i) {
      assert ViewOk(q, view, i);
      assert view'[i].prev ==> view[i].prev;
      PendingUpdate(q.subs, id, None, i);
    }
  }

  // A cursor that has something to read stands inside an existing node, and a read
  // takes what is left of that node.
  lemma NodeOfCursor(q: Queue, view: seq<NodeView>, id: nat)
    requires Stored(q, view) && CanRead(q, id)
    ensures var c := q.subs[id].value.next; var n := c / 1024;
            && n < |view|
            && 1024 * n <= c <= 1024 * n + |view[n].events|
            && Chunk(q, id) == view[n].events[c - 1024 * n..]
            && (|view[n].events| == 1024 ==> ChunkEnd(q, id) == 1024 * n + 1024)
            && (|view[n].events| != 1024 ==> ChunkEnd(q, id) == |q.log| < 1024 * n + 1024 && n == |view| - 1)
  {
    var c := q.subs[id].value.next;
    var n := c / 1024;
    assert n < |view|;
    assert ViewOk(q, view, n);
  }

  lemma StoredRead(q: Queue, view: seq<NodeView>, view': seq<NodeView>, id: nat)
    requires Stored(q, view) && CanRead(q, id)
    requires var n := q.subs[id].value.next / 1024;
             n < |view| && view' == if |view[n].events| == 1024 then DropRef(view, n) else view
    ensures Stored(Read(q, id), view')
  {
    NodeOfCursor(q, view, id);
    var q' := Read(q, id);
    forall i | 0 <= i < |view'| ensures ViewOk(q', view', i) {
      assert ViewOk(q, view, i) && (i > 0 ==> ViewOk(q, view, i - 1));
      PendingUpdate(q.subs, id, q'.subs[id], i);
    }
  }

  lemma {:induction false} LiveCountZero(subs: seq<Option<Cursor>>)
    requires forall k :: 0 <= k < |subs| ==> subs[k].None?
    ensures LiveCount(subs) == 0
  {
    if subs != [] { LiveCountZero(subs[1..]); }
  }

  // A node created now is still ahead of every live stream.
  lemma {:induction false} PendingOfNewNode(subs: seq<Option<Cursor>>, node: nat, logLen: nat)
    requires logLen == 1024 * node
    requires forall k :: 0 <= k < |subs| && subs[k].Some? ==> subs[k].value.next <= logLen
    ensures Pending(subs, node) == LiveCount(subs)
  {
    if subs != [] { PendingOfNewNode(subs[1..], node, logLen); }
  }
}
