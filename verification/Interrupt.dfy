// Closing a connection while other threads interrupt it, every interleaving.
//
// `InnerConnection::close` and `InterruptHandle::interrupt` share a copy of the
// database pointer behind a mutex; each step below is one access under it.
module InterruptAndClose {
  datatype Lock = Free | Closer | Interrupter(t: nat)

  /** Where the owning thread stands in `close`. */
  datatype ClosePc =
    | Out                 // not inside `close`
    | Wanting             // hooks removed, waiting for the mutex
    | Entered             // holds the mutex, about to check the shared pointer
    | Checked             // about to call sqlite3_close
    | Calling             // inside sqlite3_close
    | Called(ok: bool)    // it returned
    | SharedCleared       // shared pointer nulled, own pointer not yet
    | Finishing           // about to release the mutex

  /** Where a thread stands in `interrupt`; absent threads are outside it. */
  datatype InterruptPc = Holding | Interrupting | Releasing

  /**
   * `handle` is the C database, `db` the connection's pointer, `shared` the copy
   * behind the mutex, 0 being null. `fault` records a forbidden C call, `bug` the
   * failed assertion, `closes` the successful calls of sqlite3_close.
   */
  datatype State = State(
    owned: bool, handle: nat, db: nat, shared: nat, live: bool,
    lock: Lock, pc: ClosePc, threads: map<nat, InterruptPc>,
    closes: nat, fault: bool, bug: bool)

  datatype Step =
    | EnterClose
    | TakeForClose
    | Check
    | CallClose
    | CloseReturns(ok: bool)
    | ClearShared
    | ClearDb
    | ReleaseFromClose
    | TakeForInterrupt(t: nat)
    | CallInterrupt(t: nat)
    | InterruptReturns(t: nat)
    | ReleaseFromInterrupt(t: nat)
    | OwnerCloses   // the real owner of a borrowed handle closes it

  function Start(handle: nat, owned: bool): State {
    State(owned, handle, handle, if owned then handle else 0, true, Free, Out, map[], 0, false, false)
  }

  predicate In(s: State, t: nat, pc: InterruptPc) {
    t in s.threads && s.threads[t] == pc
  }

  predicate Enabled(s: State, step: Step) {
    match step
    case EnterClose => s.pc == Out
    case TakeForClose => s.pc == Wanting && s.lock == Free
    case Check => s.pc == Entered
    case CallClose => s.pc == Checked
    case CloseReturns(_) => s.pc == Calling
    case ClearShared => s.pc == Called(true)
    case ClearDb => s.pc == SharedCleared
    case ReleaseFromClose => s.pc == Finishing || s.pc == Called(false)
    case TakeForInterrupt(t) => t !in s.threads && s.lock == Free
    case CallInterrupt(t) => In(s, t, Holding)
    case InterruptReturns(t) => In(s, t, Interrupting)
    case ReleaseFromInterrupt(t) => In(s, t, Releasing)
    case OwnerCloses => !s.owned && s.live
  }

  function Next(s: State, step: Step): State
    requires Enabled(s, step)
  {
    match step
    case EnterClose => if s.db == 0 then s else s.(pc := Wanting)
    case TakeForClose => s.(pc := Entered, lock := Closer)
    case Check =>
      var s1 := s.(bug := s.bug || (s.owned && s.shared == 0));
      if s.owned then s1.(pc := Checked) else s1.(pc := Finishing, db := 0)
    case CallClose =>
      var clash := !s.live || exists t | t in s.threads :: s.threads[t] == Interrupting;
      s.(pc := Calling, fault := s.fault || clash)
    case CloseReturns(ok) => if ok then s.(pc := Called(true), live := false, closes := s.closes + 1) else s.(pc := Called(false))
    case ClearShared => s.(pc := SharedCleared, shared := 0)
    case ClearDb => s.(pc := Finishing, db := 0)
    case ReleaseFromClose => s.(pc := Out, lock := Free)
    case TakeForInterrupt(t) => s.(threads := s.threads[t := Holding], lock := Interrupter(t))
    case CallInterrupt(t) =>
      if s.shared == 0 then s.(threads := s.threads[t := Releasing])
      else s.(threads := s.threads[t := Interrupting], fault := s.fault || !s.live || s.pc == Calling)
    case InterruptReturns(t) => s.(threads := s.threads[t := Releasing])
    case ReleaseFromInterrupt(t) => s.(threads := s.threads - {t}, lock := Free)
    case OwnerCloses => s.(live := false)
  }

  predicate Open(s: State) {
    s.db == s.handle && s.shared == s.handle && s.live && s.closes == 0
  }

  predicate Shut(s: State) {
    s.db == 0 && s.shared == 0 && !s.live && s.closes == 1
  }

  ghost predicate Inv(s: State) {
    && !s.fault && !s.bug && s.handle != 0
    && (s.lock == Closer <==> s.pc != Out && s.pc != Wanting)
    && (forall t :: t in s.threads <==> s.lock == Interrupter(t))
    && (forall t | t in s.threads && s.threads[t] == Interrupting :: s.owned && Open(s))
    && (if s.owned then
          match s.pc
          case Out => Open(s) || Shut(s)
          case Called(true) => s.db == s.handle && s.shared == s.handle && !s.live && s.closes == 1
          case SharedCleared => s.db == s.handle && s.shared == 0 && !s.live && s.closes == 1
          case Finishing => Shut(s)
          case _ => Open(s)
        else
          && s.shared == 0 && s.closes == 0 && (s.db == 0 || s.db == s.handle)
          && (s.pc == Out || s.pc == Wanting || s.pc == Entered || (s.pc == Finishing && s.db == 0)))
  }

  lemma StepKeeps(s: State, step: Step)
    requires Inv(s) && Enabled(s, step)
    ensures Inv(Next(s, step))
  {
  }

  predicate Runs(s: State, run: seq<Step>)
    decreases |run|
  {
    run != [] ==> Enabled(s, run[0]) && Runs(Next(s, run[0]), run[1..])
  }

  function After(s: State, run: seq<Step>): State
    requires Runs(s, run)
    decreases |run|
  {
    if run == [] then s else After(Next(s, run[0]), run[1..])
  }

  lemma {:induction false} RunKeeps(s: State, run: seq<Step>)
    requires Inv(s) && Runs(s, run)
    ensures Inv(After(s, run))
    ensures After(s, run).owned == s.owned && After(s, run).handle == s.handle
    ensures s.owned && s.closes == 1 ==> After(s, run).closes == 1
    decreases |run|
  {
    if run != [] {
      StepKeeps(s, run[0]);
      RunKeeps(Next(s, run[0]), run[1..]);
    }
  }

  /**
   * In every reachable state: while the mutex is free the shared pointer is the
   * connection's own pointer, or null for a borrowed handle; no C call was made
   * that the interface forbids; the assertion has not failed; at most one close
   * succeeded, after which no thread is interrupting; and outside `close` an
   * owned connection is either wholly open, ready to be closed again, or wholly shut.
   */
  lemma InterruptAndCloseAreSafe(handle: nat, owned: bool, run: seq<Step>)
    requires handle != 0 && Runs(Start(handle, owned), run)
    ensures var s := After(Start(handle, owned), run);
      && !s.fault && !s.bug && s.closes <= 1
      && (s.lock == Free ==> s.shared == if owned then s.db else 0)
      && (s.closes == 1 || s.pc == Calling ==> forall t :: !In(s, t, Interrupting))
      && (owned && s.pc == Out ==> if s.closes == 0 then Open(s) else Shut(s))
  {
    RunKeeps(Start(handle, owned), run);
  }

  /**
   * Through any interleaving with other threads, and any number of calls of
   * `close`, an open connection is still open, its pointers as they were, exactly
   * when no sqlite3_close has succeeded.
   */
  lemma {:induction false} FailedCloseChangesNothing(s: State, run: seq<Step>)
    requires Inv(s) && s.owned && Open(s) && Runs(s, run)
    ensures Open(After(s, run)) <==> CloseReturns(true) !in run
    ensures After(s, run).handle == s.handle
    decreases |run|
  {
    if run != [] {
      var s' := Next(s, run[0]);
      StepKeeps(s, run[0]);
      assert run == [run[0]] + run[1..];
      if run[0] == CloseReturns(true) {
        RunKeeps(s', run[1..]);
      } else {
        FailedCloseChangesNothing(s', run[1..]);
      }
    }
  }

  /** The steps of one call of `close` that meets no other thread. */
  function Attempt(ok: bool): seq<Step> {
    [EnterClose] + ([TakeForClose] + ([Check] + ([CallClose] + AttemptEnd(ok))))
  }

  /** From where sqlite3_close returns. */
  function AttemptEnd(ok: bool): seq<Step> {
    [CloseReturns(ok)] + if ok then [ClearShared] + ([ClearDb] + [ReleaseFromClose]) else [ReleaseFromClose]
  }

  lemma OneStep(s: State, step: Step, rest: seq<Step>)
    requires Enabled(s, step) && Runs(Next(s, step), rest)
    ensures Runs(s, [step] + rest) && After(s, [step] + rest) == After(Next(s, step), rest)
  {
    assert ([step] + rest)[1..] == rest;
  }

  lemma AttemptEnds(s: State, ok: bool)
    requires s.pc == Calling
    ensures Runs(s, AttemptEnd(ok))
    ensures After(s, AttemptEnd(ok))
         == (if ok then s.(db := 0, shared := 0, live := false, closes := s.closes + 1) else s).(pc := Out, lock := Free)
  {
    var s1 := Next(s, CloseReturns(ok));
    var last := [ReleaseFromClose];
    assert last == [ReleaseFromClose] + [];
    if ok {
      var s2 := Next(s1, ClearShared);
      var s3 := Next(s2, ClearDb);
      OneStep(s3, ReleaseFromClose, []);
      OneStep(s2, ClearDb, last);
      OneStep(s1, ClearShared, [ClearDb] + last);
      OneStep(s, CloseReturns(true), [ClearShared] + ([ClearDb] + last));
    } else {
      OneStep(s1, ReleaseFromClose, []);
      OneStep(s, CloseReturns(false), last);
    }
  }

  /** Whatever failed before, the next attempt shuts an open connection or leaves it exactly as it was. */
  lemma NextAttemptDecides(s: State, ok: bool)
    requires Inv(s) && s.owned && s.pc == Out && s.lock == Free && Open(s)
    ensures Runs(s, Attempt(ok))
    ensures After(s, Attempt(ok)) == if ok then s.(db := 0, shared := 0, live := false, closes := 1) else s
  {
    assert forall t :: t !in s.threads;
    var s1 := s.(pc := Wanting);
    var s2 := s.(pc := Entered, lock := Closer);
    var s3 := s2.(pc := Checked);
    var s4 := s2.(pc := Calling);
    assert Next(s, EnterClose) == s1 && Next(s1, TakeForClose) == s2;
    assert Next(s2, Check) == s3 && Next(s3, CallClose) == s4;
    AttemptEnds(s4, ok);
    OneStep(s3, CallClose, AttemptEnd(ok));
    OneStep(s2, Check, [CallClose] + AttemptEnd(ok));
    OneStep(s1, TakeForClose, [Check] + ([CallClose] + AttemptEnd(ok)));
    OneStep(s, EnterClose, [TakeForClose] + ([Check] + ([CallClose] + AttemptEnd(ok))));
  }

  /**
   * An interrupt reaches the connection exactly when it is an owned one that has
   * not been closed: in every reachable state a thread that goes on from the mutex
   * makes the call or, with nothing to interrupt, goes straight to its release.
   */
  lemma InterruptReaches(handle: nat, owned: bool, run: seq<Step>, t: nat)
    requires handle != 0 && Runs(Start(handle, owned), run)
    requires Enabled(After(Start(handle, owned), run), CallInterrupt(t))
    ensures var s := After(Start(handle, owned), run);
      var s' := Next(s, CallInterrupt(t));
      && (In(s', t, Interrupting) <==> owned && s.closes == 0)
      && (!In(s', t, Interrupting) ==> In(s', t, Releasing))
  {
    RunKeeps(Start(handle, owned), run);
  }

  /** A thread inside `interrupt` always has a step, and after at most three it is out with the mutex free. */
  lemma InterrupterLeaves(s: State, t: nat)
    requires Inv(s) && t !in s.threads && s.lock == Free
    ensures var s1 := Next(s, TakeForInterrupt(t));
      var s2 := Next(s1, CallInterrupt(t));
      var s3 := if In(s2, t, Interrupting) then Next(s2, InterruptReturns(t)) else s2;
      Next(s3, ReleaseFromInterrupt(t)) == s
  {
    var s1 := Next(s, TakeForInterrupt(t));
    var s2 := Next(s1, CallInterrupt(t));
    var s3 := if In(s2, t, Interrupting) then Next(s2, InterruptReturns(t)) else s2;
    StepKeeps(s, TakeForInterrupt(t));
    StepKeeps(s1, CallInterrupt(t));
    assert s3.threads - {t} == s.threads;
  }

  /** Closing what is already closed does nothing, and closing a borrowed handle only forgets it: no C call is made. */
  lemma CloseWithoutHandle(s: State)
    requires Inv(s) && s.pc == Out && (s.db == 0 || (!s.owned && s.lock == Free))
    ensures s.db == 0 ==> Next(s, EnterClose) == s
    ensures s.db != 0 ==>
      var run := [EnterClose] + ([TakeForClose] + ([Check] + [ReleaseFromClose]));
      Runs(s, run) && After(s, run) == s.(db := 0)
  {
    if s.db != 0 {
      var s1 := s.(pc := Wanting);
      var s2 := s.(pc := Entered, lock := Closer);
      var s3 := s2.(pc := Finishing, db := 0);
      var last := [ReleaseFromClose];
      assert last == last + [];
      OneStep(s3, ReleaseFromClose, []);
      OneStep(s2, Check, last);
      OneStep(s1, TakeForClose, [Check] + last);
      OneStep(s, EnterClose, [TakeForClose] + ([Check] + last));
    }
  }
}
