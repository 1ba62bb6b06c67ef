// What a transaction guarantees about its asynchronous operations.

module TxTheorems {
  import opened Wrappers
  import opened TxAsync

  lemma BeginGood()
    ensures Good(Begin())
  {
  }

  lemma Reached(run: seq<Action>)
    requires CanRun(Begin(), run)
    ensures Good(After(Begin(), run))
  {
    BeginGood();
    RunGood(Begin(), run);
  }

  function Reqs(ms: seq<Info>): set<nat> {
    if ms == [] then {} else Reqs(ms[1..]) + {ms[0].req}
  }

  lemma {:induction false} InReqs(ms: seq<Info>, r: nat)
    requires r in Reqs(ms)
    ensures exists i :: 0 <= i < |ms| && ms[i].req == r
  {
    if r != ms[0].req {
      InReqs(ms[1..], r);
      var i :| 0 <= i < |ms[1..]| && ms[1..][i].req == r;
      assert ms[i + 1].req == r;
    }
  }

  lemma {:induction false} ReqsCount(ms: seq<Info>)
    requires forall i, j :: 0 <= i < j < |ms| ==> ms[i].req != ms[j].req
    ensures |Reqs(ms)| == |ms|
  {
    if ms != [] {
      ReqsCount(ms[1..]);
      if ms[0].req in Reqs(ms[1..]) {
        InReqs(ms[1..], ms[0].req);
        assert false;
      }
    }
  }

  lemma {:induction false} SubsetCount(a: set<nat>, b: set<nat>)
    requires a <= b
    ensures |a| <= |b|
  {
    if a != {} {
      var x :| x in a;
      SubsetCount(a - {x}, b - {x});
    }
  }

  // asyncRspCnt is the number of requests under way and at most 500; the completion
  // channel, made for 1000, never holds more than that, so neither a reply nor the
  // completion routine sending a retry ever waits for it.
  lemma AsyncAccounting(run: seq<Action>)
    requires CanRun(Begin(), run)
    ensures var s := After(Begin(), run);
      s.asyncRspCnt == |s.place| && |s.cmplCh| <= s.asyncRspCnt <= 500
  {
    Reached(run);
    var s := After(Begin(), run);
    ReqsCount(s.cmplCh);
    forall r | r in Reqs(s.cmplCh) ensures r in s.place.Keys {
      InReqs(s.cmplCh, r);
    }
    SubsetCount(Reqs(s.cmplCh), s.place.Keys);
    assert |s.place| == |s.place.Keys|;
  }

  // A request is handed to the binding at most twice, its completion is called at most
  // once and only if it was accepted; when the counter is at zero, every accepted
  // request has had its completion called.
  lemma CompletedOnce(run: seq<Action>)
    requires CanRun(Begin(), run)
    ensures var s := After(Begin(), run);
      && (forall r :: r in s.attempts ==> s.attempts[r] <= 2)
      && (forall i, j :: 0 <= i < j < |s.done| ==> s.done[i].0 != s.done[j].0)
      && (forall i :: 0 <= i < |s.done| ==> s.done[i].0 in s.accepted)
      && (s.asyncRspCnt == 0 ==> forall r :: r in s.accepted ==> Done(s, r))
  {
    Reached(run);
    var s := After(Begin(), run);
    if s.asyncRspCnt == 0 {
      assert s.place.Keys == {};
    }
  }

  // While requests are under way something other than a new request can happen: a reply,
  // or a step of a caller or of the completion routine.
  lemma NeverStuck(run: seq<Action>)
    requires CanRun(Begin(), run) && After(Begin(), run).asyncRspCnt > 0
    ensures exists a :: Enabled(After(Begin(), run), a) && !a.OfCommit? && !(a.OfCaller? && a.c.Reserve?)
  {
    Reached(run);
    AsyncAccounting(run);
    var s := After(Begin(), run);
    if !s.handler.Idle? {
      var a := match s.handler
        case Got(_) => Judge(None)
        case Resending(_) => Resend(Fine)
        case Ending(_, _) => CallCmpl
        case Called(_, _) => Latch
        case _ => Release;
      assert Enabled(s, OfRoutine(a));
    } else {
      assert s.place.Keys != {};
      var r :| r in s.place;
      var p := s.place[r];
      if p.InChannel? {
        assert IsAt(s, r, InChannel);
        assert Enabled(s, OfRoutine(Take));
      } else if p.Handling? {
        assert IsAt(s, r, Handling);
        assert false;
      } else {
        var a := match p
          case Reserved => CheckError(r)
          case Refused => Refuse(r)
          case Packing => Pack(r, Fine)
          case _ => Reply(r, None);
        assert Enabled(s, OfCaller(a));
      }
    }
  }

  // CommitTx is called only when every accepted modification that came in before the
  // wait ended has completed, and none of those with an error, whatever came in after it;
  // when it is not called, RollbackTx is, on account of a latched error.
  lemma AtomicCommit(run: seq<Action>)
    requires CanRun(Begin(), run)
    ensures var s := After(Begin(), run);
      && (s.commit.Clean? || s.commit.Committed? ==>
           && (forall r :: r in s.early && r in s.accepted ==> Done(s, r))
           && (forall i :: 0 <= i < |s.done| && s.done[i].0 in s.early ==> s.done[i].1.None?))
      && (s.commit.Failing? || s.commit.RolledBack? ==> s.asyncErr.Some?)
  {
    Reached(run);
  }

  // One failed modification of those is enough: the commit can then only fail.
  lemma FailureDecides(run: seq<Action>, i: nat)
    requires CanRun(Begin(), run)
    requires var s := After(Begin(), run); s.commit.Awaited? && i < |s.done| && s.done[i].0 in s.early && s.done[i].1.Some?
    ensures DoCommit(After(Begin(), run), Decide).commit.Failing?
  {
    Reached(run);
    var s := After(Begin(), run);
    if s.asyncErr.None? {
      assert false;
    }
  }

  lemma {:induction false} Chain(s: Tx, run: seq<Action>, a: Action)
    requires CanRun(s, run) && Enabled(After(s, run), a)
    ensures CanRun(s, run + [a]) && After(s, run + [a]) == Do(After(s, run), a)
    decreases |run|
  {
    if run == [] {
      assert run + [a] == [a] && [a][1..] == [];
    } else {
      Chain(Do(s, run[0]), run[1..], a);
      assert (run + [a])[1..] == run[1..] + [a];
    }
  }

  lemma Then(run: seq<Action>, a: Action) returns (longer: seq<Action>)
    requires CanRun(Begin(), run) && Enabled(After(Begin(), run), a)
    ensures CanRun(Begin(), longer) && After(Begin(), longer) == Do(After(Begin(), run), a)
  {
    Chain(Begin(), run, a);
    longer := run + [a];
  }

  // Only of those: an operation from another goroutine that comes in between the wait and
  // CommitTx is committed around while its modification is still under way.
  lemma LateOperationIsCommittedAround() returns (run: seq<Action>)
    ensures CanRun(Begin(), run)
    ensures var s := After(Begin(), run); s.commit.Clean? && 0 in s.accepted && !Done(s, 0) && IsAt(s, 0, OnWire(1))
  {
    run := Then([], OfCommit(Await));
    run := Then(run, OfCommit(Decide));
    run := Then(run, OfCaller(Reserve(0)));
    run := Then(run, OfCaller(CheckError(0)));
    run := Then(run, OfCaller(Pack(0, Fine)));
  }

  // ---- the synchronous way: modifyInternal ----

  // outcomes[i] is the result of packing and sending attempt i. The caller is told of
  // success without there having been one exactly when both attempts found the state
  // invalidated.
  method ModifyInternal(outcomes: seq<Option<Error>>) returns (err: Option<Error>)
    requires |outcomes| == 2
    ensures err.None? <==>
      outcomes[0].None? || (outcomes[0] == Some(StateInvalidated) && (outcomes[1].None? || outcomes[1] == Some(StateInvalidated)))
    ensures err.None? && outcomes[0].Some? && outcomes[1].Some? <==>
      outcomes == [Some(StateInvalidated), Some(StateInvalidated)]
    ensures err.Some? ==> err == outcomes[0] || (outcomes[0] == Some(StateInvalidated) && err == outcomes[1])
  {
    var i := 0;
    while i < 2
      invariant 0 <= i <= 2
      invariant forall k :: 0 <= k < i ==> outcomes[k] == Some(StateInvalidated)
    {
      if outcomes[i].Some? {
        if outcomes[i].value != StateInvalidated {
          return outcomes[i];
        }
      } else {
        return None;
      }
      i := i + 1;
    }
    return None;
  }
}
