// Asynchronous modifications of a transaction (tx.go): callers, the binding's replies,
// the completion routine and the commit, one atomic step at a time.

module TxAsync {
  import opened Wrappers

  datatype Error = StateInvalidated | Other(code: nat)

  // modifyInfo, as far as it matters here
  datatype Info = Info(req: nat, err: Option<Error>, retries: nat)

  // Where a request that counts in asyncRspCnt is.
  datatype Place =
    | Reserved            // checkReqCount raised the counter
    | Refused             // and found an error
    | Packing             // modifyInternalAsync, first attempt
    | OnWire(retries: nat)
    | InChannel
    | Handling

  datatype Handler =
    | Idle
    | Got(m: Info)
    | Resending(m: Info)
    | Ending(m: Info, err: Option<Error>)      // about to call the completion
    | Called(m: Info, err: Option<Error>)
    | Latched(m: Info)                         // setAsyncError done

  datatype Commit = NotYet | Awaited | Clean | Failing | Committed | RolledBack

  // Packing an item: success, an error return, or a panic.
  datatype Packed = Fine | Bad(e: Error) | Panics

  // `done`, `attempts`, `accepted` and `early` are auxiliary: the completions called, the
  // requests handed to the binding, the requests that got past the error check, and those
  // that came in before the commit had done waiting.
  datatype Tx = Tx(
    asyncRspCnt: nat, asyncErr: Option<Error>, cmplCh: seq<Info>, handler: Handler, commit: Commit,
    place: map<nat, Place>,
    done: seq<(nat, Option<Error>)>, attempts: map<nat, nat>, accepted: set<nat>, early: set<nat>)

  function Begin(): Tx { Tx(0, None, [], Idle, NotYet, map[], [], map[], {}, {}) }

  // checkReqCount and modifyInternalAsync, and the binding's replies
  datatype CallerAction =
    | Reserve(r: nat) | CheckError(r: nat) | Refuse(r: nat) | Pack(r: nat, result: Packed) | Reply(r: nat, err: Option<Error>)

  // cmplHandlingRoutine
  datatype RoutineAction = Take | Judge(requery: Option<Error>) | Resend(result: Packed) | CallCmpl | Latch | Release

  // commitInternal
  datatype CommitAction = Await | Decide | Finish

  datatype Action = OfCaller(c: CallerAction) | OfRoutine(h: RoutineAction) | OfCommit(m: CommitAction)

  predicate IsAt(s: Tx, r: nat, p: Place) { r in s.place && s.place[r] == p }

  predicate EnabledCaller(s: Tx, a: CallerAction) {
    match a
    case Reserve(r) => s.asyncRspCnt < 500 && r !in s.place && r !in s.attempts && r !in s.accepted && r !in s.early
      && s.commit != Committed && s.commit != RolledBack
    case CheckError(r) => IsAt(s, r, Reserved)
    case Refuse(r) => IsAt(s, r, Refused) && s.asyncRspCnt > 0
    case Pack(r, result) => IsAt(s, r, Packing) && (result.Panics? ==> s.asyncRspCnt > 0) && (result.Bad? ==> |s.cmplCh| < 1000)
    case Reply(r, _) => r in s.place && s.place[r].OnWire? && |s.cmplCh| < 1000
  }

  function DoCaller(s: Tx, a: CallerAction): Tx
    requires EnabledCaller(s, a)
  {
    match a
    case Reserve(r) => s.(asyncRspCnt := s.asyncRspCnt + 1, place := s.place[r := Reserved], early := if s.commit.NotYet? then s.early + {r} else s.early)
    case CheckError(r) =>
      if s.asyncErr.Some? then s.(place := s.place[r := Refused])
      else s.(place := s.place[r := Packing], accepted := s.accepted + {r})
    case Refuse(r) => s.(asyncRspCnt := s.asyncRspCnt - 1, place := s.place - {r})
    case Pack(r, result) =>
      (match result
       case Fine => s.(place := s.place[r := OnWire(1)], attempts := s.attempts[r := 1])
       case Bad(e) => s.(place := s.place[r := InChannel], cmplCh := s.cmplCh + [Info(r, Some(e), 1)])
       case Panics => s.(asyncRspCnt := s.asyncRspCnt - 1, place := s.place - {r}, accepted := s.accepted - {r}))
    case Reply(r, err) =>
      // internalCmpl
      s.(place := s.place[r := InChannel],
         cmplCh := s.cmplCh + [Info(r, err, if err.Some? then s.place[r].retries else 0)])
  }

  predicate EnabledRoutine(s: Tx, a: RoutineAction) {
    match a
    case Take => s.handler.Idle? && s.cmplCh != []
    case Judge(_) => s.handler.Got?
    case Resend(result) => s.handler.Resending? && s.handler.m.retries > 0 && !result.Panics? && (result.Bad? ==> |s.cmplCh| < 1000)
    case CallCmpl => s.handler.Ending?
    case Latch => s.handler.Called?
    case Release => s.handler.Latched? && s.asyncRspCnt > 0
  }

  function DoRoutine(s: Tx, a: RoutineAction): Tx
    requires EnabledRoutine(s, a)
  {
    match a
    case Take => s.(handler := Got(s.cmplCh[0]), cmplCh := s.cmplCh[1..], place := s.place[s.cmplCh[0].req := Handling])
    case Judge(requery) =>
      var m := s.handler.m;
      var err := if m.err == Some(StateInvalidated) && m.retries > 0 then requery else m.err;
      s.(handler := if err.None? && m.retries > 0 then Resending(m) else Ending(m, err))
    case Resend(result) =>
      var m := s.handler.m;
      if result.Fine? then
        s.(handler := Idle, place := s.place[m.req := OnWire(m.retries - 1)],
           attempts := s.attempts[m.req := if m.req in s.attempts then s.attempts[m.req] + 1 else 1])
      else
        s.(handler := Idle, place := s.place[m.req := InChannel], cmplCh := s.cmplCh + [Info(m.req, Some(result.e), m.retries - 1)])
    case CallCmpl => s.(handler := Called(s.handler.m, s.handler.err), done := s.done + [(s.handler.m.req, s.handler.err)])
    case Latch =>
      s.(handler := Latched(s.handler.m), asyncErr := if s.handler.err.Some? && s.asyncErr.None? then s.handler.err else s.asyncErr)
    case Release => s.(handler := Idle, asyncRspCnt := s.asyncRspCnt - 1, place := s.place - {s.handler.m.req})
  }

  predicate EnabledCommit(s: Tx, a: CommitAction) {
    match a
    case Await => s.commit.NotYet? && s.asyncRspCnt == 0
    case Decide => s.commit.Awaited?
    case Finish => s.commit.Clean? || s.commit.Failing?
  }

  function DoCommit(s: Tx, a: CommitAction): Tx
    requires EnabledCommit(s, a)
  {
    match a
    case Await => s.(commit := Awaited)
    case Decide => s.(commit := if s.asyncErr.Some? then Failing else Clean)
    case Finish => s.(commit := if s.commit.Clean? then Committed else RolledBack)
  }

  predicate Enabled(s: Tx, a: Action) {
    match a
    case OfCaller(x) => EnabledCaller(s, x)
    case OfRoutine(x) => EnabledRoutine(s, x)
    case OfCommit(x) => EnabledCommit(s, x)
  }

  function Do(s: Tx, a: Action): Tx
    requires Enabled(s, a)
  {
    match a
    case OfCaller(x) => DoCaller(s, x)
    case OfRoutine(x) => DoRoutine(s, x)
    case OfCommit(x) => DoCommit(s, x)
  }

  predicate CanRun(s: Tx, run: seq<Action>)
    decreases |run|
  {
    run == [] || (Enabled(s, run[0]) && CanRun(Do(s, run[0]), run[1..]))
  }

  function After(s: Tx, run: seq<Action>): Tx
    requires CanRun(s, run)
    decreases |run|
  {
    if run == [] then s else After(Do(s, run[0]), run[1..])
  }

  // ---- what every step keeps ----

  ghost predicate Counted(s: Tx) {
    s.asyncRspCnt == |s.place| <= 500
  }

  ghost predicate Channel(s: Tx) {
    && (forall i :: 0 <= i < |s.cmplCh| ==> IsAt(s, s.cmplCh[i].req, InChannel))
    && (forall i, j :: 0 <= i < j < |s.cmplCh| ==> s.cmplCh[i].req != s.cmplCh[j].req)
    && (forall r :: IsAt(s, r, InChannel) ==> exists i :: 0 <= i < |s.cmplCh| && s.cmplCh[i].req == r)
  }

  ghost predicate Routine(s: Tx) {
    && (!s.handler.Idle? ==> IsAt(s, s.handler.m.req, Handling))
    && (forall r :: IsAt(s, r, Handling) ==> !s.handler.Idle? && s.handler.m.req == r)
  }

  function Tries(s: Tx, r: nat): nat { if r in s.attempts then s.attempts[r] else 0 }

  predicate InfoOk(s: Tx, m: Info) {
    Tries(s, m.req) + m.retries <= 2 && (m.err.None? ==> m.retries == 0)
  }

  ghost predicate Attempts(s: Tx) {
    && (forall r :: r in s.place && s.place[r].OnWire? ==> Tries(s, r) + s.place[r].retries <= 2)
    && (forall r :: r in s.place && (s.place[r].Reserved? || s.place[r].Refused? || s.place[r].Packing?) ==> r !in s.attempts)
    && (forall r :: r in s.attempts ==> s.attempts[r] <= 2)
    && (!s.handler.Idle? ==> InfoOk(s, s.handler.m))
    && (s.handler.Resending? ==> s.handler.m.retries > 0)
  }

  ghost predicate Retries(s: Tx) {
    forall i :: 0 <= i < |s.cmplCh| ==> InfoOk(s, s.cmplCh[i])
  }

  ghost predicate Done(s: Tx, r: nat) {
    exists i :: 0 <= i < |s.done| && s.done[i].0 == r
  }

  // The completion of r has been called and its place not yet given up.
  predicate Leaving(s: Tx, r: nat) {
    (s.handler.Called? || s.handler.Latched?) && s.handler.m.req == r
  }

  ghost predicate Completions(s: Tx) {
    && (forall i, j :: 0 <= i < j < |s.done| ==> s.done[i].0 != s.done[j].0)
    && (forall i :: 0 <= i < |s.done| ==> s.done[i].0 in s.accepted && (s.done[i].0 in s.place ==> Leaving(s, s.done[i].0)))
    && (s.handler.Called? || s.handler.Latched? ==> Done(s, s.handler.m.req))
    && (forall r :: r in s.accepted ==> r in s.place || Done(s, r))
    && (forall r :: r in s.place && !s.place[r].Reserved? && !s.place[r].Refused? ==> r in s.accepted)
    && (forall r :: r in s.place && (s.place[r].Reserved? || s.place[r].Refused?) ==> r !in s.accepted)
  }

  ghost predicate Latching(s: Tx) {
    && (forall i :: 0 <= i < |s.done| && s.done[i].1.Some? ==>
          s.asyncErr.Some? || (s.handler.Called? && s.handler.m.req == s.done[i].0 && s.handler.err.Some?))
  }

  // Once the commit has waited, no early request is under way; when it goes on to commit,
  // none has failed.
  ghost predicate Closing(s: Tx) {
    && (!s.commit.NotYet? ==> forall r :: r in s.place ==> r !in s.early)
    && (s.commit.Clean? || s.commit.Committed? ==>
          forall i :: 0 <= i < |s.done| && s.done[i].0 in s.early ==> s.done[i].1.None?)
    && (s.commit.Failing? || s.commit.RolledBack? ==> s.asyncErr.Some?)
  }

  ghost predicate Good(s: Tx) {
    Counted(s) && Channel(s) && Routine(s) && Attempts(s) && Retries(s) && Completions(s) && Latching(s) && Closing(s)
  }

  lemma ChannelFilled(s: Tx, s': Tx)
    requires Channel(s)
    requires s'.cmplCh == s.cmplCh || (|s'.cmplCh| == |s.cmplCh| + 1 && s'.cmplCh[..|s.cmplCh|] == s.cmplCh)
    requires forall r :: IsAt(s, r, InChannel) ==> IsAt(s', r, InChannel)
    requires forall r :: IsAt(s', r, InChannel) ==>
      IsAt(s, r, InChannel) || (|s'.cmplCh| > |s.cmplCh| && s'.cmplCh[|s.cmplCh|].req == r)
    requires |s'.cmplCh| > |s.cmplCh| ==>
      var r := s'.cmplCh[|s.cmplCh|].req; IsAt(s', r, InChannel) && !IsAt(s, r, InChannel)
    ensures Channel(s')
  {
    assert forall i :: 0 <= i < |s.cmplCh| ==> s'.cmplCh[i] == s.cmplCh[i];
    forall r | IsAt(s, r, InChannel) ensures exists i :: 0 <= i < |s'.cmplCh| && s'.cmplCh[i].req == r {
      var i :| 0 <= i < |s.cmplCh| && s.cmplCh[i].req == r;
      assert s'.cmplCh[i] == s.cmplCh[i];
    }
  }

  lemma ChannelTaken(s: Tx, s': Tx)
    requires Channel(s) && s.cmplCh != [] && s'.cmplCh == s.cmplCh[1..]
    requires s'.place == s.place[s.cmplCh[0].req := Handling]
    ensures Channel(s')
  {
    forall r | IsAt(s', r, InChannel) ensures exists i :: 0 <= i < |s'.cmplCh| && s'.cmplCh[i].req == r {
      assert IsAt(s, r, InChannel);
      var i :| 0 <= i < |s.cmplCh| && s.cmplCh[i].req == r;
      assert i > 0 && s'.cmplCh[i - 1] == s.cmplCh[i];
    }
  }

  lemma DoneStays(s: Tx, s': Tx)
    requires s.done <= s'.done
    ensures forall r :: Done(s, r) ==> Done(s', r)
    ensures |s'.done| > |s.done| ==> Done(s', s'.done[|s.done|].0)
  {
    forall r | Done(s, r) ensures Done(s', r) {
      var i :| 0 <= i < |s.done| && s.done[i].0 == r;
      assert s'.done[i] == s.done[i];
    }
  }

  lemma CallerKeepsCounted(s: Tx, a: CallerAction)
    requires Counted(s) && Channel(s) && Routine(s) && EnabledCaller(s, a)
    ensures Counted(DoCaller(s, a))
  {
    var s' := DoCaller(s, a);
    assert s'.place.Keys == if a.Reserve? then s.place.Keys + {a.r}
      else if a.Refuse? || (a.Pack? && a.result.Panics?) then s.place.Keys - {a.r} else s.place.Keys;
  }

  lemma RoutineKeepsCounted(s: Tx, a: RoutineAction)
    requires Counted(s) && Channel(s) && Routine(s) && EnabledRoutine(s, a)
    ensures Counted(DoRoutine(s, a))
  {
    var s' := DoRoutine(s, a);
    assert s'.place.Keys == if a.Release? then s.place.Keys - {s.handler.m.req} else s.place.Keys;
  }

  lemma CallerKeepsChannel(s: Tx, a: CallerAction)
    requires Channel(s) && Routine(s) && EnabledCaller(s, a)
    ensures Channel(DoCaller(s, a))
  {
    ChannelFilled(s, DoCaller(s, a));
  }

  lemma RoutineKeepsChannel(s: Tx, a: RoutineAction)
    requires Channel(s) && Routine(s) && EnabledRoutine(s, a)
    ensures Channel(DoRoutine(s, a))
  {
    if a.Take? {
      ChannelTaken(s, DoRoutine(s, a));
    } else {
      ChannelFilled(s, DoRoutine(s, a));
    }
  }

  lemma CallerKeepsRoutine(s: Tx, a: CallerAction)
    requires Channel(s) && Routine(s) && EnabledCaller(s, a)
    ensures Routine(DoCaller(s, a))
  {
    forall r | IsAt(DoCaller(s, a), r, Handling) ensures IsAt(s, r, Handling) {
    }
  }

  lemma RoutineKeepsRoutine(s: Tx, a: RoutineAction)
    requires Channel(s) && Routine(s) && EnabledRoutine(s, a)
    ensures Routine(DoRoutine(s, a))
  {
    forall r | IsAt(DoRoutine(s, a), r, Handling) ensures IsAt(s, r, Handling) || (a.Take? && r == s.cmplCh[0].req) {
    }
  }

  lemma CallerKeepsAttempts(s: Tx, a: CallerAction)
    requires Channel(s) && Routine(s) && Attempts(s) && Retries(s) && EnabledCaller(s, a)
    ensures Attempts(DoCaller(s, a))
  {
  }

  lemma CallerKeepsRetries(s: Tx, a: CallerAction)
    requires Channel(s) && Routine(s) && Attempts(s) && Retries(s) && EnabledCaller(s, a)
    ensures Retries(DoCaller(s, a))
  {
  }

  lemma RoutineKeepsAttempts(s: Tx, a: RoutineAction)
    requires Channel(s) && Routine(s) && Attempts(s) && Retries(s) && EnabledRoutine(s, a)
    ensures Attempts(DoRoutine(s, a))
  {
  }

  lemma RoutineKeepsRetries(s: Tx, a: RoutineAction)
    requires Channel(s) && Routine(s) && Attempts(s) && Retries(s) && EnabledRoutine(s, a)
    ensures Retries(DoRoutine(s, a))
  {
  }

  lemma CallerKeepsCompletions(s: Tx, a: CallerAction)
    requires Channel(s) && Routine(s) && Completions(s) && EnabledCaller(s, a)
    ensures Completions(DoCaller(s, a))
  {
    DoneStays(s, DoCaller(s, a));
  }

  lemma RoutineKeepsCompletions(s: Tx, a: RoutineAction)
    requires Channel(s) && Routine(s) && Completions(s) && EnabledRoutine(s, a)
    ensures Completions(DoRoutine(s, a))
  {
    DoneStays(s, DoRoutine(s, a));
  }

  lemma CallerKeepsLatching(s: Tx, a: CallerAction)
    requires Latching(s) && EnabledCaller(s, a)
    ensures Latching(DoCaller(s, a))
  {
  }

  lemma RoutineKeepsLatching(s: Tx, a: RoutineAction)
    requires Latching(s) && EnabledRoutine(s, a)
    ensures Latching(DoRoutine(s, a))
  {
  }

  lemma CallerKeepsClosing(s: Tx, a: CallerAction)
    requires Completions(s) && Closing(s) && EnabledCaller(s, a)
    ensures Closing(DoCaller(s, a))
  {
  }

  lemma RoutineKeepsClosing(s: Tx, a: RoutineAction)
    requires Counted(s) && Channel(s) && Routine(s) && Closing(s) && EnabledRoutine(s, a)
    ensures Closing(DoRoutine(s, a))
  {
  }

  lemma CommitKeepsClosing(s: Tx, a: CommitAction)
    requires Counted(s) && Routine(s) && Latching(s) && Closing(s) && EnabledCommit(s, a)
    ensures Closing(DoCommit(s, a))
  {
    if a.Await? {
      assert s.place.Keys == {};
    }
  }

  lemma CommitKeepsRest(s: Tx, a: CommitAction)
    requires Good(s) && EnabledCommit(s, a)
    ensures var s' := DoCommit(s, a);
      Counted(s') && Channel(s') && Routine(s') && Attempts(s') && Retries(s') && Completions(s') && Latching(s')
  {
    var s' := DoCommit(s, a);
    DoneStays(s, s');
    ChannelFilled(s, s');
    forall r | IsAt(s', r, Handling) ensures IsAt(s, r, Handling) {
    }
  }

  lemma StepGood(s: Tx, a: Action)
    requires Good(s) && Enabled(s, a)
    ensures Good(Do(s, a))
  {
    match a
    case OfCaller(x) =>
      CallerKeepsCounted(s, x);
      CallerKeepsChannel(s, x);
      CallerKeepsRoutine(s, x);
      CallerKeepsAttempts(s, x);
      CallerKeepsRetries(s, x);
      CallerKeepsCompletions(s, x);
      CallerKeepsLatching(s, x);
      CallerKeepsClosing(s, x);
    case OfRoutine(x) =>
      RoutineKeepsCounted(s, x);
      RoutineKeepsChannel(s, x);
      RoutineKeepsRoutine(s, x);
      RoutineKeepsAttempts(s, x);
      RoutineKeepsRetries(s, x);
      RoutineKeepsCompletions(s, x);
      RoutineKeepsLatching(s, x);
      RoutineKeepsClosing(s, x);
    case OfCommit(x) =>
      CommitKeepsClosing(s, x);
      CommitKeepsRest(s, x);
  }

  lemma {:induction false} RunGood(s: Tx, run: seq<Action>)
    requires Good(s) && CanRun(s, run)
    ensures Good(After(s, run))
    decreases |run|
  {
    if run != [] {
      StepGood(s, run[0]);
      RunGood(Do(s, run[0]), run[1..]);
    }
  }
}
