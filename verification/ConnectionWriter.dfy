// The write path of a connection: any number of goroutines in write(), and writeLoop.

module ConnectionWriter {
  datatype LoopPc = Waiting | Kicked | Writing | Gone

  // `appended` holds the calls of write that have released the lock and not kicked yet;
  // `log` is auxiliary, the packets in the order in which write had the lock.
  datatype Writer = Writer(
    wrBuf: seq<bv8>, wrBuf2: seq<bv8>, socket: seq<bv8>, kick: bool, failed: bool,
    loop: LoopPc, appended: set<nat>, log: seq<seq<bv8>>)

  function Fresh(): Writer { Writer([], [], [], false, false, Waiting, {}, []) }

  datatype Action =
    | Append(w: nat, packet: seq<bv8>)   // write: under the lock
    | Kick(w: nat)                       // write: the send that does not wait
    | OnError                            // any goroutine
    | Quit                               // writeLoop: errCh is closed
    | Receive                            // writeLoop: <-wrKick
    | Swap                               // writeLoop: under the lock
    | WriteSome(n: nat)                  // conn.Write accepts n bytes
    | WriteFails

  predicate Enabled(s: Writer, a: Action) {
    match a
    case Append(w, _) => w !in s.appended
    case Kick(w) => w in s.appended
    case OnError => true
    case Quit => s.loop.Waiting? && s.failed
    case Receive => s.loop.Waiting? && s.kick
    case Swap => s.loop.Kicked?
    case WriteSome(n) => s.loop.Writing? && 0 < n <= |s.wrBuf2|
    case WriteFails => s.loop.Writing?
  }

  function Do(s: Writer, a: Action): Writer
    requires Enabled(s, a)
  {
    match a
    case Append(w, packet) => s.(wrBuf := s.wrBuf + packet, appended := s.appended + {w}, log := s.log + [packet])
    case Kick(w) => s.(kick := true, appended := s.appended - {w})
    case OnError => s.(failed := true)
    case Quit => s.(loop := Gone)
    case Receive => s.(kick := false, loop := Kicked)
    case Swap =>
      if s.wrBuf == [] then s.(loop := if s.failed then Gone else Waiting)
      else s.(wrBuf := s.wrBuf2, wrBuf2 := s.wrBuf, loop := Writing)
    case WriteSome(n) =>
      s.(socket := s.socket + s.wrBuf2[..n], wrBuf2 := s.wrBuf2[n..], loop := if n == |s.wrBuf2| then Waiting else Writing)
    case WriteFails => s.(failed := true, loop := Gone)
  }

  function Bytes(log: seq<seq<bv8>>): seq<bv8> {
    if log == [] then [] else Bytes(log[..|log| - 1]) + log[|log| - 1]
  }

  predicate CanRun(s: Writer, run: seq<Action>)
    decreases |run|
  {
    run == [] || (Enabled(s, run[0]) && CanRun(Do(s, run[0]), run[1..]))
  }

  function After(s: Writer, run: seq<Action>): Writer
    requires CanRun(s, run)
    decreases |run|
  {
    if run == [] then s else After(Do(s, run[0]), run[1..])
  }

  predicate InOrder(s: Writer) {
    && s.socket + s.wrBuf2 + s.wrBuf == Bytes(s.log)
    && (s.loop.Waiting? || s.loop.Kicked? ==> s.wrBuf2 == [])
    && (s.loop.Writing? ==> s.wrBuf2 != [])
  }

  predicate Awake(s: Writer) {
    && (s.loop.Gone? ==> s.failed)
    && (s.wrBuf != [] && !s.failed ==> s.kick || s.appended != {} || s.loop.Kicked?)
  }


  lemma StepInOrder(s: Writer, a: Action)
    requires InOrder(s) && Enabled(s, a)
    ensures InOrder(Do(s, a))
  {
    match a
    case Append(w, packet) =>
      assert (s.log + [packet])[..|s.log|] == s.log;
      assert s.socket + s.wrBuf2 + (s.wrBuf + packet) == s.socket + s.wrBuf2 + s.wrBuf + packet;
    case WriteSome(n) =>
      assert s.socket + s.wrBuf2[..n] + s.wrBuf2[n..] == s.socket + s.wrBuf2;
    case Swap =>
      assert s.socket + s.wrBuf + [] == s.socket + [] + s.wrBuf;
    case _ =>
  }

  lemma StepAwake(s: Writer, a: Action)
    requires InOrder(s) && Awake(s) && Enabled(s, a)
    ensures Awake(Do(s, a))
  {
    if a.Append? {
      assert a.w in Do(s, a).appended;
    }
  }

  lemma {:induction false} Reached(s: Writer, run: seq<Action>)
    requires InOrder(s) && Awake(s) && CanRun(s, run)
    ensures InOrder(After(s, run)) && Awake(After(s, run))
    decreases |run|
  {
    if run != [] {
      StepInOrder(s, run[0]);
      StepAwake(s, run[0]);
      Reached(Do(s, run[0]), run[1..]);
    }
  }

  // The socket gets the packets whole and in lock order: what it has, what is being
  // written and what waits are together the packets appended so far.
  lemma PacketsInLockOrder(run: seq<Action>)
    requires CanRun(Fresh(), run)
    ensures var s := After(Fresh(), run);
      && s.socket + s.wrBuf2 + s.wrBuf == Bytes(s.log)
      && s.socket <= Bytes(s.log)
  {
    Reached(Fresh(), run);
    var s := After(Fresh(), run);
    assert Bytes(s.log)[..|s.socket|] == s.socket;
  }

  // Bytes never wait without a wake-up on its way.
  lemma NoLostWakeUp(run: seq<Action>)
    requires CanRun(Fresh(), run)
    ensures var s := After(Fresh(), run);
      s.wrBuf != [] && !s.failed ==> s.kick || s.appended != {} || s.loop.Kicked?
  {
    Reached(Fresh(), run);
  }

  // When there is no error and nothing is left to do, everything has been written.
  lemma IdleMeansWritten(run: seq<Action>)
    requires CanRun(Fresh(), run)
    requires var s := After(Fresh(), run);
      && !s.failed
      && (forall a :: Enabled(s, a) ==> a.Append? || a.OnError?)
    ensures After(Fresh(), run).socket == Bytes(After(Fresh(), run).log)
  {
    Reached(Fresh(), run);
    var s := After(Fresh(), run);
    assert !Enabled(s, Receive) && !Enabled(s, Swap) && !Enabled(s, WriteFails) && !Enabled(s, Quit);
    if s.appended != {} {
      var w :| w in s.appended;
      assert Enabled(s, Kick(w));
    }
  }
}
