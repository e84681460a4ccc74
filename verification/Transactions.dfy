// Transaction handles: commit, rollback, dispose, finalization, and every run
// over any number of handles of one connection.
module Transactions {
  import opened Sessions
  import opened Wrappers

  datatype DropBehavior = RollBack | CommitIt | Ignore | Panic

  datatype Outcome = Ok | AlreadyCompleted | SqlFailed | DroppedUnexpectedly | Panicked | Absent

  datatype Handle = Handle(finished: bool, behavior: DropBehavior)

  // ---- One handle --------------------------------------------------------

  function End(s: Session, h: Handle, call: Call, ok: bool): (Session, Handle, Outcome) {
    if h.finished then (s, h, AlreadyCompleted)
    else
      var (s', done) := Issue(s, call, ok);
      if done then (s', h.(finished := true), Ok) else (s', h, SqlFailed)
  }

  function DisposeOf(s: Session, h: Handle, ok: bool): (Session, Handle, Outcome) {
    if h.finished then (s, h, Ok)
    else
      match h.behavior
      case RollBack => End(s, h, Rollback, ok)
      case CommitIt => End(s, h, Commit, ok)
      case Ignore => (s, h.(finished := true), Ok)
      case Panic => (s, h, DroppedUnexpectedly)
  }

  function FinalizeOf(s: Session, h: Handle, commitOk: bool, rollbackOk: bool): (Session, Outcome) {
    if h.finished || s.d.autocommit then (s, Ok)
    else
      match h.behavior
      case CommitIt =>
        var (s1, done) := Issue(s, Commit, commitOk);
        if done then (s1, Ok) else (Issue(s1, Rollback, rollbackOk).0, SqlFailed)
      case RollBack => (Issue(s, Rollback, rollbackOk).0, Ok)
      case Ignore => (s, Ok)
      case Panic => (s, Panicked)
  }

  /** Finalizing leaves nothing open exactly when its own COMMIT or ROLLBACK got through. */
  predicate FinalizeSettles(b: DropBehavior, commitOk: bool, rollbackOk: bool) {
    match b
    case CommitIt => commitOk || rollbackOk
    case RollBack => rollbackOk
    case Ignore => false
    case Panic => false
  }

  class Transaction {
    const conn: Connection
    var dropBehavior: DropBehavior
    var finished: bool

    constructor (conn: Connection, dropBehavior: DropBehavior)
      ensures this.conn == conn && Now() == Handle(false, dropBehavior)
    {
      this.conn := conn;
      this.dropBehavior := dropBehavior;
      finished := false;
    }

    ghost function Now(): Handle
      reads this
    {
      Handle(finished, dropBehavior)
    }

    method CommitTransaction(ok: bool) returns (r: Outcome)
      modifies this`finished, conn
      ensures (conn.s, Now(), r) == End(old(conn.s), old(Now()), Commit, ok)
    {
      if finished {
        return AlreadyCompleted;
      }
      var done := conn.ExecuteBatch(Commit, ok);
      if !done {
        return SqlFailed;
      }
      finished := true;
      r := Ok;
    }

    method RollbackTransaction(ok: bool) returns (r: Outcome)
      modifies this`finished, conn
      ensures (conn.s, Now(), r) == End(old(conn.s), old(Now()), Rollback, ok)
    {
      if finished {
        return AlreadyCompleted;
      }
      var done := conn.ExecuteBatch(Rollback, ok);
      if !done {
        return SqlFailed;
      }
      finished := true;
      r := Ok;
    }

    method SetDropBehavior(b: DropBehavior)
      modifies this`dropBehavior
      ensures Now() == Handle(old(finished), b)
    {
      dropBehavior := b;
    }

    method Dispose(ok: bool) returns (r: Outcome)
      modifies this`finished, conn
      ensures (conn.s, Now(), r) == DisposeOf(old(conn.s), old(Now()), ok)
    {
      if finished {
        return Ok;
      }
      match dropBehavior {
        case RollBack => r := RollbackTransaction(ok);
        case CommitIt => r := CommitTransaction(ok);
        case Ignore =>
          finished := true;
          r := Ok;
        case Panic => r := DroppedUnexpectedly;
      }
    }

    method Finalize(commitOk: bool, rollbackOk: bool) returns (r: Outcome)
      modifies conn
      ensures (conn.s, r) == FinalizeOf(old(conn.s), Now(), commitOk, rollbackOk)
      ensures !finished && !old(conn.s.d.autocommit) ==>
        (conn.s.d.autocommit <==> FinalizeSettles(dropBehavior, commitOk, rollbackOk))
    {
      r := Ok;
      if !finished && !conn.s.d.autocommit {
        match dropBehavior {
          case CommitIt =>
            var done := conn.ExecuteBatch(Commit, commitOk);
            if !done {
              var _ := conn.ExecuteBatch(Rollback, rollbackOk);
              r := SqlFailed;
            }
          case RollBack =>
            var _ := conn.ExecuteBatch(Rollback, rollbackOk);
          case Ignore =>
          case Panic => r := Panicked;
        }
      }
    }
  }

  datatype Options = Options(mode: Option<Mode>, behavior: Option<DropBehavior>)

  /** `Connection::transaction`: deferred and rolled back when dropped, unless the options say otherwise. */
  method StartTransaction(conn: Connection, options: Option<Options>, ok: bool) returns (t: Transaction?)
    modifies conn
    ensures var mode := if options.Some? && options.value.mode.Some? then options.value.mode.value else Deferred;
      var begun := ok && old(conn.s.d.autocommit);
      && (t != null <==> begun)
      && conn.s == if begun then Session(old(conn.s.d).(autocommit := false), old(conn.s.log) + [Begin(mode)])
                   else old(conn.s)
    ensures t != null ==>
      && fresh(t) && t.conn == conn
      && t.Now() == Handle(false, if options.Some? && options.value.behavior.Some? then options.value.behavior.value else RollBack)
  {
    var mode, behavior := Deferred, RollBack;
    if options.Some? {
      mode := if options.value.mode.Some? then options.value.mode.value else mode;
      behavior := if options.value.behavior.Some? then options.value.behavior.value else behavior;
    }
    var done := conn.ExecuteBatch(Begin(mode), ok);
    t := null;
    if done {
      t := new Transaction(conn, behavior);
    }
  }

  // ---- What one handle reports and does -----------------------------------

  /** `s'` is `s` once its transaction has ended by `call`. */
  ghost predicate Ended(s: Session, s': Session, call: Call) {
    && s'.log == s.log + [call] && s'.d.autocommit && s'.d.saves == []
    && s'.d.working == s'.d.durable == if call == Commit then s.d.working else s.d.durable
  }

  /**
   * `commit` and `rollback` refuse a finished handle; otherwise they succeed
   * exactly when a transaction is open and SQLite manages it, and only then change
   * anything: the handle is finished and the writes are kept or undone.
   */
  lemma EndReports(s: Session, h: Handle, call: Call, ok: bool)
    requires call == Commit || call == Rollback
    ensures var (s', h', r) := End(s, h, call, ok);
      && (r == AlreadyCompleted <==> h.finished)
      && (r == Ok <==> !h.finished && ok && !s.d.autocommit)
      && (r == Ok || r == AlreadyCompleted || r == SqlFailed)
      && (if r == Ok then h' == Handle(true, h.behavior) && Ended(s, s', call) else h' == h && s' == s)
  {
  }

  /**
   * `dispose` is Ok on a finished handle and changes nothing; it is Ok under Ignore
   * and where its own COMMIT or ROLLBACK gets through, and then finishes the
   * handle; Panic has an error of its own and finishes nothing.
   */
  lemma DisposeReports(s: Session, h: Handle, ok: bool)
    ensures var (s', h', r) := DisposeOf(s, h, ok);
      && (r == Ok <==> h.finished || h.behavior == Ignore || (h.behavior != Panic && ok && !s.d.autocommit))
      && (r == DroppedUnexpectedly <==> !h.finished && h.behavior == Panic)
      && (r == Ok || r == DroppedUnexpectedly || r == SqlFailed)
      && h' == Handle(h.finished || r == Ok, h.behavior)
      && (if r == Ok && !h.finished && h.behavior != Ignore
          then Ended(s, s', if h.behavior == CommitIt then Commit else Rollback) else s' == s)
  {
  }

  /**
   * Finalization acts only on an unfinished handle outside autocommit. A failed
   * COMMIT is reported whatever the ROLLBACK after it does, a failed ROLLBACK never
   * is, and Panic panics.
   */
  lemma FinalizeReports(s: Session, h: Handle, commitOk: bool, rollbackOk: bool)
    ensures var (s', r) := FinalizeOf(s, h, commitOk, rollbackOk);
      var acts := !h.finished && !s.d.autocommit;
      && (r == SqlFailed <==> acts && h.behavior == CommitIt && !commitOk)
      && (r == Panicked <==> acts && h.behavior == Panic)
      && (r == Ok || r == SqlFailed || r == Panicked)
      && (if acts && h.behavior == CommitIt && commitOk then Ended(s, s', Commit)
          else if acts && (h.behavior == CommitIt || h.behavior == RollBack) && rollbackOk then Ended(s, s', Rollback)
          else s' == s)
  {
  }

  // ---- Runs over many handles ---------------------------------------------

  /** `live[i]` says the i-th handle has not been finalized. */
  datatype Sys = Sys(s: Session, handles: seq<Handle>, live: seq<bool>)

  datatype Event =
    | Open(mode: Mode, behavior: DropBehavior, ok: bool)
    | Change(key: string, value: int, ok: bool)
    | CommitOf(i: nat, ok: bool)
    | RollbackOf(i: nat, ok: bool)
    | Dispose(i: nat, ok: bool)
    | SetBehavior(i: nat, behavior: DropBehavior)
    | Finalize(i: nat, commitOk: bool, rollbackOk: bool)

  predicate Usable(y: Sys, i: nat) {
    |y.live| == |y.handles| && i < |y.handles| && y.live[i]
  }

  function Updated(y: Sys, i: nat, r: (Session, Handle, Outcome)): Sys
    requires i < |y.handles|
  {
    y.(s := r.0, handles := y.handles[i := r.1])
  }

  function Step(y: Sys, ev: Event): Sys {
    match ev
    case Open(mode, behavior, ok) =>
      var (s, done) := Issue(y.s, Begin(mode), ok);
      if done then Sys(s, y.handles + [Handle(false, behavior)], y.live + [true]) else y.(s := s)
    case Change(key, value, ok) => y.(s := Issue(y.s, Write(key, value), ok).0)
    case CommitOf(i, ok) => if Usable(y, i) then Updated(y, i, End(y.s, y.handles[i], Commit, ok)) else y
    case RollbackOf(i, ok) => if Usable(y, i) then Updated(y, i, End(y.s, y.handles[i], Rollback, ok)) else y
    case Dispose(i, ok) => if Usable(y, i) then Updated(y, i, DisposeOf(y.s, y.handles[i], ok)) else y
    case SetBehavior(i, b) =>
      if Usable(y, i) then y.(handles := y.handles[i := y.handles[i].(behavior := b)]) else y
    case Finalize(i, commitOk, rollbackOk) =>
      if Usable(y, i) then
        y.(s := FinalizeOf(y.s, y.handles[i], commitOk, rollbackOk).0, live := y.live[i := false])
      else y
  }

  function Run(y: Sys, evs: seq<Event>): Sys
    decreases |evs|
  {
    if evs == [] then y else Run(Step(y, evs[0]), evs[1..])
  }

  function Start(durable: Store): Sys {
    Sys(Session(Db(durable, durable, true, [], false), []), [], [])
  }

  // ---- Atomicity -----------------------------------------------------------

  /** How the transaction a log starts in ends: by a commit, by a rollback, or not yet. */
  datatype Fate = Committed | RolledBack | Undecided

  function FateOf(log: seq<Call>): Fate {
    if log == [] then Undecided
    else if log[0] == Commit then Committed
    else if log[0] == Rollback then RolledBack
    else FateOf(log[1..])
  }

  /**
   * The writes of a log that last: those made outside any transaction, and those
   * of each transaction whose COMMIT is in the log.
   */
  function Lasting(log: seq<Call>, inTransaction: bool): seq<Call> {
    if log == [] then []
    else
      match log[0]
      case Write(_, _) =>
        (if !inTransaction || FateOf(log[1..]) == Committed then [log[0]] else []) + Lasting(log[1..], inTransaction)
      case Begin(_) => Lasting(log[1..], true)
      case _ => Lasting(log[1..], false)
  }

  function ApplyWrites(store: Store, writes: seq<Call>): Store
    decreases |writes|
  {
    if writes == [] then store
    else ApplyWrites(if writes[0].Write? then store[writes[0].key := writes[0].value] else store, writes[1..])
  }

  /** Not about savepoints, which transaction handles never use. */
  predicate Plain(call: Call) {
    !call.Savepoint? && !call.Release? && !call.RollbackTo?
  }

  function Replay(d: Db, log: seq<Call>): Db
    decreases |log|
  {
    if log == [] then d else Replay(Exec(d, log[0], true).0, log[1..])
  }

  predicate Replays(d: Db, log: seq<Call>)
    decreases |log|
  {
    log != [] ==>
      && Plain(log[0])
      && Exec(d, log[0], true).1 && Replays(Exec(d, log[0], true).0, log[1..])
  }

  lemma {:induction false} ReplayOneMore(d: Db, log: seq<Call>, call: Call)
    ensures Replay(d, log + [call]) == Exec(Replay(d, log), call, true).0
    ensures Replays(d, log) && Plain(call) && Exec(Replay(d, log), call, true).1 ==> Replays(d, log + [call])
    decreases |log|
  {
    var all := log + [call];
    if log == [] {
      assert all[1..] == [];
    } else {
      assert all[0] == log[0] && all[1..] == log[1..] + [call];
      ReplayOneMore(Exec(d, log[0], true).0, log[1..], call);
    }
  }

  /** What a log leaves durable is what its lasting writes make of the starting state. */
  lemma {:induction false} DurableIsWhatLasts(d: Db, log: seq<Call>)
    requires Consistent(d) && Replays(d, log)
    ensures Replay(d, log).durable
         == ApplyWrites(if !d.autocommit && FateOf(log) == Committed then d.working else d.durable,
                        Lasting(log, !d.autocommit))
    decreases |log|
  {
    if log != [] {
      var d' := Exec(d, log[0], true).0;
      ExecKeepsConsistent(d, log[0], true);
      DurableIsWhatLasts(d', log[1..]);
      if log[0].Write? && (d.autocommit || FateOf(log[1..]) == Committed) {
        var rest := Lasting(log[1..], !d.autocommit);
        assert ([log[0]] + rest)[0] == log[0] && ([log[0]] + rest)[1..] == rest;
      } else if log[0].Write? {
        assert [] + Lasting(log[1..], !d.autocommit) == Lasting(log[1..], !d.autocommit);
      }
    }
  }

  ghost predicate Faithful(d0: Db, s: Session) {
    Replays(d0, s.log) && Replay(d0, s.log) == s.d
  }

  lemma IssueKeepsFaithful(d0: Db, s: Session, call: Call, ok: bool)
    requires Faithful(d0, s) && Plain(call)
    ensures Faithful(d0, Issue(s, call, ok).0)
  {
    ReplayOneMore(d0, s.log, call);
  }

  lemma StepKeepsFaithful(d0: Db, y: Sys, ev: Event)
    requires Faithful(d0, y.s)
    ensures Faithful(d0, Step(y, ev).s)
  {
    forall call: Call, ok | Plain(call)
      ensures Faithful(d0, Issue(y.s, call, ok).0)
    {
      IssueKeepsFaithful(d0, y.s, call, ok);
    }
    if ev.Finalize? && Usable(y, ev.i) {
      IssueKeepsFaithful(d0, Issue(y.s, Commit, ev.commitOk).0, Rollback, ev.rollbackOk);
    }
  }

  lemma {:induction false} RunKeepsFaithful(d0: Db, y: Sys, evs: seq<Event>)
    requires Faithful(d0, y.s)
    ensures Faithful(d0, Run(y, evs).s)
    decreases |evs|
  {
    if evs != [] {
      StepKeepsFaithful(d0, y, evs[0]);
      RunKeepsFaithful(d0, Step(y, evs[0]), evs[1..]);
    }
  }

  /**
   * After any run the durable state is the initial one plus the writes made in
   * autocommit and the writes of exactly the transactions whose COMMIT succeeded.
   */
  lemma TransactionsAreAtomic(durable: Store, evs: seq<Event>)
    ensures var y := Run(Start(durable), evs);
      && y.s.d.durable == ApplyWrites(durable, Lasting(y.s.log, false))
      && (y.s.d.autocommit ==> y.s.d.working == y.s.d.durable)
  {
    var d0 := Start(durable).s.d;
    RunKeepsFaithful(d0, Start(durable), evs);
    var log := Run(Start(durable), evs).s.log;
    DurableIsWhatLasts(d0, log);
    ReplayConsistent(d0, log);
  }

  lemma {:induction false} ReplayConsistent(d: Db, log: seq<Call>)
    requires Consistent(d)
    ensures Consistent(Replay(d, log))
    decreases |log|
  {
    if log != [] {
      ExecKeepsConsistent(d, log[0], true);
      ReplayConsistent(Exec(d, log[0], true).0, log[1..]);
    }
  }

  /** What an event adds to the history, from the state and the handle it meets. */
  function Added(y: Sys, ev: Event): seq<Call> {
    var open := !y.s.d.autocommit;
    match ev
    case Open(mode, _, ok) => if ok && !open then [Begin(mode)] else []
    case Change(key, value, ok) => if ok then [Write(key, value)] else []
    case CommitOf(i, ok) => if Unfinished(y, i) && open && ok then [Commit] else []
    case RollbackOf(i, ok) => if Unfinished(y, i) && open && ok then [Rollback] else []
    case SetBehavior(_, _) => []
    case Dispose(i, ok) =>
      if !Unfinished(y, i) || !open || !ok then []
      else if y.handles[i].behavior == CommitIt then [Commit]
      else if y.handles[i].behavior == RollBack then [Rollback]
      else []
    case Finalize(i, commitOk, rollbackOk) =>
      if !Unfinished(y, i) || !open then []
      else
        match y.handles[i].behavior
        case CommitIt => if commitOk then [Commit] else if rollbackOk then [Rollback] else []
        case RollBack => if rollbackOk then [Rollback] else []
        case _ => []
  }

  /** The history of a run is just what its events add, so each commit and rollback in it is one of theirs. */
  lemma HistoryGrows(y: Sys, ev: Event)
    ensures Step(y, ev).s.log == y.s.log + Added(y, ev)
  {
    assert y.s.log + [] == y.s.log;
  }

  /** A new handle comes with each BEGIN that gets through; a handle's behaviour is the last one set. */
  lemma HandlesChange(y: Sys, ev: Event)
    requires |y.live| == |y.handles|
    ensures var y' := Step(y, ev);
      && |y'.live| == |y'.handles| == |y.handles| + (if ev.Open? && Added(y, ev) != [] then 1 else 0)
      && (ev.Open? && Added(y, ev) != [] ==> y'.handles[|y.handles|] == Handle(false, ev.behavior) && y'.live[|y.handles|])
      && forall i | 0 <= i < |y.handles| ::
           && (y'.handles[i].behavior
               == if ev.SetBehavior? && ev.i == i && y.live[i] then ev.behavior else y.handles[i].behavior)
           && (y'.live[i] <==> y.live[i] && !(ev.Finalize? && ev.i == i))
  {
  }

  /** The events in which some unfinished handle's COMMIT goes through. */
  predicate CommitSucceeds(y: Sys, ev: Event) {
    (ev.CommitOf? || ev.Dispose? || ev.Finalize?) && Added(y, ev) == [Commit]
  }

  /** A COMMIT enters the history in exactly those events, and a commit or disposal then reports it. */
  lemma CommitsAreReported(y: Sys, ev: Event)
    ensures Step(y, ev).s.log == y.s.log + [Commit] <==> CommitSucceeds(y, ev)
    ensures CommitSucceeds(y, ev) && ev.CommitOf? ==> End(y.s, y.handles[ev.i], Commit, ev.ok).2 == Ok
    ensures CommitSucceeds(y, ev) && ev.Dispose? ==> DisposeOf(y.s, y.handles[ev.i], ev.ok).2 == Ok
    ensures ev.CommitOf? && Usable(y, ev.i) && End(y.s, y.handles[ev.i], Commit, ev.ok).2 == Ok ==> CommitSucceeds(y, ev)
  {
    HistoryGrows(y, ev);
    var log, added := y.s.log, Added(y, ev);
    assert (log + added)[|log|..] == added && (log + [Commit])[|log|..] == [Commit];
  }

  // ---- Ownership of the open transaction ------------------------------------

  predicate Unfinished(y: Sys, i: nat) {
    Usable(y, i) && !y.handles[i].finished
  }

  ghost predicate SingleOwner(y: Sys) {
    && |y.live| == |y.handles|
    && (forall i, j | Unfinished(y, i) && Unfinished(y, j) :: i == j)
    && (forall i | Unfinished(y, i) :: !y.s.d.autocommit)
  }

  /** A transaction is open and no handle can end it. */
  ghost predicate Orphaned(y: Sys) {
    !y.s.d.autocommit && forall i :: !Unfinished(y, i)
  }

  /** The events that leave their transaction open for good. */
  predicate Abandons(y: Sys, ev: Event) {
    match ev
    case Dispose(i, _) => Unfinished(y, i) && y.handles[i].behavior == Ignore
    case Finalize(i, commitOk, rollbackOk) =>
      Unfinished(y, i) && !FinalizeSettles(y.handles[i].behavior, commitOk, rollbackOk)
    case _ => false
  }

  predicate AbandonedIn(y: Sys, evs: seq<Event>)
    decreases |evs|
  {
    evs != [] && (Abandons(y, evs[0]) || AbandonedIn(Step(y, evs[0]), evs[1..]))
  }

  lemma StepKeepsOwner(y: Sys, ev: Event)
    requires SingleOwner(y)
    ensures SingleOwner(Step(y, ev))
    ensures Orphaned(Step(y, ev)) <==> Orphaned(y) || Abandons(y, ev)
  {
    var y' := Step(y, ev);
    match ev
    case Open(mode, behavior, ok) =>
      assert forall i: nat | i < |y.handles| :: Unfinished(y', i) == Unfinished(y, i);
      if ok && y.s.d.autocommit {
        assert Unfinished(y', |y.handles|);
      } else {
        assert forall i: nat :: Unfinished(y', i) == Unfinished(y, i);
      }
    case Change(_, _, _) =>
      assert forall i: nat :: Unfinished(y', i) == Unfinished(y, i);
    case SetBehavior(_, _) =>
      assert forall i: nat :: Unfinished(y', i) == Unfinished(y, i);
    case CommitOf(i, _) => OneHandleActs(y, ev, i);
    case RollbackOf(i, _) => OneHandleActs(y, ev, i);
    case Dispose(i, _) => OneHandleActs(y, ev, i);
    case Finalize(i, _, _) => OneHandleActs(y, ev, i);
  }

  lemma OneHandleActs(y: Sys, ev: Event, i: nat)
    requires SingleOwner(y)
    requires match ev case CommitOf(j, _) => i == j case RollbackOf(j, _) => i == j case Dispose(j, _) => i == j
                      case Finalize(j, _, _) => i == j case _ => false
    ensures SingleOwner(Step(y, ev))
    ensures Orphaned(Step(y, ev)) <==> Orphaned(y) || Abandons(y, ev)
  {
    var y' := Step(y, ev);
    assert forall j: nat | j != i :: Unfinished(y', j) == Unfinished(y, j);
    if Unfinished(y, i) {
      assert forall j: nat | j != i :: !Unfinished(y', j);
      assert Unfinished(y', i) ==> y'.s == y.s;
      assert !Unfinished(y', i) ==> (Abandons(y, ev) <==> !y'.s.d.autocommit);
    } else {
      assert y'.s == y.s && !Unfinished(y', i);
    }
  }

  /**
   * At most one handle is unfinished and it owns the open transaction. A
   * transaction is left open with no handle exactly when some event of the run
   * abandoned it: an Ignore disposal, an Ignore or Panic finalization, or a
   * finalization whose ROLLBACK failed too.
   */
  lemma {:induction false} OneOwnerOrAbandoned(y: Sys, evs: seq<Event>)
    requires SingleOwner(y) && !Orphaned(y)
    ensures SingleOwner(Run(y, evs))
    ensures Orphaned(Run(y, evs)) <==> AbandonedIn(y, evs)
    decreases |evs|
  {
    if evs != [] {
      StepKeepsOwner(y, evs[0]);
      if Orphaned(Step(y, evs[0])) {
        OrphanedForGood(Step(y, evs[0]), evs[1..]);
      } else {
        OneOwnerOrAbandoned(Step(y, evs[0]), evs[1..]);
      }
    }
  }

  lemma {:induction false} OrphanedForGood(y: Sys, evs: seq<Event>)
    requires SingleOwner(y) && Orphaned(y)
    ensures SingleOwner(Run(y, evs)) && Orphaned(Run(y, evs))
    ensures Run(y, evs).s.d.durable == y.s.d.durable
    decreases |evs|
  {
    if evs != [] {
      StepKeepsOwner(y, evs[0]);
      OrphanedForGood(Step(y, evs[0]), evs[1..]);
    }
  }

  /** From a new connection. */
  lemma HandlesOwnTheTransaction(durable: Store, evs: seq<Event>)
    ensures var y := Run(Start(durable), evs);
      && (forall i, j | Unfinished(y, i) && Unfinished(y, j) :: i == j)
      && (forall i | Unfinished(y, i) :: !y.s.d.autocommit)
      && ((!y.s.d.autocommit && forall i :: !Unfinished(y, i)) <==> AbandonedIn(Start(durable), evs))
  {
    OneOwnerOrAbandoned(Start(durable), evs);
  }

  /** Without any Ignore or Panic a failed ROLLBACK in a finalizer still leaves the transaction open. */
  lemma FailedFinalizerAbandons(durable: Store, mode: Mode)
    ensures var evs := [Open(mode, RollBack, true), Finalize(0, true, false)];
      && Orphaned(Run(Start(durable), evs))
      && forall ev | ev in evs :: !(ev.Dispose? || ev.SetBehavior?) && (ev.Open? ==> ev.behavior == RollBack)
  {
    var evs := [Open(mode, RollBack, true), Finalize(0, true, false)];
    var y := Step(Start(durable), evs[0]);
    assert evs[1..] == [evs[1]] && [evs[1]][1..] == [];
    assert Run(Start(durable), evs) == Run(y, [evs[1]]) == Run(Step(y, evs[1]), []);
    assert Unfinished(y, 0);
  }
}
