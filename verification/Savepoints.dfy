// Savepoint callbacks: nested brackets around callbacks that may throw.
//
// A callback is a tree of writes and further brackets; the booleans of a
// bracket say what the library and the callback did at each of its calls.
module Savepoints {
  import opened AsciiNames
  import opened Sessions

  /**
   * `entered`: SAVEPOINT succeeded. `throws`: the callback failed. `released`:
   * RELEASE after a good callback succeeded. `rolledBack`: ROLLBACK TO after a
   * bad one succeeded. `undone`, `closed`: the destructor's own ROLLBACK TO and
   * RELEASE succeeded.
   */
  datatype Op =
    | Put(key: string, value: int, ok: bool)
    | Bracket(name: string, entered: bool, body: seq<Op>, throws: bool, released: bool, rolledBack: bool,
              undone: bool, closed: bool)

  // ---- What the tree means ------------------------------------------------

  /** All or nothing: a bracket counts when it entered, did not throw, and was released. */
  function Meaning(ops: seq<Op>, store: Store): Store
    decreases ops
  {
    if ops == [] then store else Meaning(ops[1..], Effect(ops[0], store))
  }

  function Effect(op: Op, store: Store): Store
    decreases op
  {
    match op
    case Put(key, value, ok) => if ok then store[key := value] else store
    case Bracket(_, entered, body, throws, released, _, _, _) =>
      if entered && !throws && released then Meaning(body, store) else store
  }

  /** The session as it would be had the connection just seen `store`. */
  function Settled(d: Db, store: Store): Db {
    d.(working := store, durable := if d.autocommit then store else d.durable)
  }

  // ---- What the code does --------------------------------------------------

  /** The destructor of a savepoint that was not released: roll back to it, then release it. */
  function FinishUnreleased(d: Db, name: string, undone: bool, closed: bool): Db {
    var (d1, back) := Exec(d, RollbackTo(name), undone);
    if back then Exec(d1, Release(name), closed).0 else d1
  }

  /** The savepoint entered is taken off again: by the call itself, or else by the destructor. */
  predicate Closes(op: Op) {
    op.Bracket? && op.entered && (op.throws || !op.released) ==> op.undone && op.closed
  }

  predicate AllClose(ops: seq<Op>)
    decreases ops
  {
    forall i | 0 <= i < |ops| :: Closes(ops[i]) && (ops[i].Bracket? ==> AllClose(ops[i].body))
  }

  function RunOps(d: Db, ops: seq<Op>): Db
    decreases ops
  {
    if ops == [] then d else RunOps(RunOp(d, ops[0]).0, ops[1..])
  }

  /** One write, or one whole bracket and whether it reported success. */
  function RunOp(d: Db, op: Op): (Db, bool)
    decreases op
  {
    match op
    case Put(key, value, ok) => Exec(d, Write(key, value), ok)
    case Bracket(name, entered, body, _, _, _, _, _) =>
      var (d1, inside) := Exec(d, Savepoint(name), entered);
      if inside then Leave(RunOps(d1, body), op) else (d1, false)
  }

  /** The rest of a call once its callback is over. */
  function Leave(d: Db, op: Op): (Db, bool)
    requires op.Bracket?
  {
    if !op.throws then
      var (d1, done) := Exec(d, Release(op.name), op.released);
      if done then (d1, true) else (FinishUnreleased(d1, op.name, op.undone, op.closed), false)
    else
      var (d1, back) := Exec(d, RollbackTo(op.name), op.rolledBack);
      (FinishUnreleased(d1, op.name, op.undone, op.closed), back)
  }

  // ---- The theorem ---------------------------------------------------------

  /** The innermost savepoint is found first, whatever other savepoints share its name. */
  lemma TopIsInnermost(saves: seq<Save>, name: string, snapshot: Store)
    ensures Innermost(saves + [Save(name, snapshot)], name) == |saves| + 1
  {
    SameNameReflexive(name);
    assert (saves + [Save(name, snapshot)])[|saves|].name == name;
  }

  /** Releasing the top savepoint keeps what its callback left. */
  lemma ReleaseTop(d: Db, name: string, store: Store, ok: bool)
    requires Consistent(d)
    ensures var d1 := Exec(d, Savepoint(name), true).0.(working := store);
      Exec(d1, Release(name), ok) == if ok then (Settled(d, store), true) else (d1, false)
  {
    var d1 := Exec(d, Savepoint(name), true).0.(working := store);
    TopIsInnermost(d.saves, name, d.working);
    assert d1.saves[..|d.saves|] == d.saves;
  }

  lemma RollbackToTop(d: Db, name: string, store: Store, ok: bool)
    requires Consistent(d)
    ensures var d0 := Exec(d, Savepoint(name), true).0;
      Exec(d0.(working := store), RollbackTo(name), ok) == (if ok then d0 else d0.(working := store), ok)
  {
    var d1 := Exec(d, Savepoint(name), true).0.(working := store);
    TopIsInnermost(d.saves, name, d.working);
    assert d1.saves[..|d1.saves|] == d1.saves;
  }

  /** The destructor undoes the callback and takes the savepoint off if both its calls succeed, and otherwise leaves it. */
  lemma FinishTop(d: Db, name: string, store: Store, undone: bool, closed: bool)
    requires Consistent(d)
    ensures var d1 := Exec(d, Savepoint(name), true).0;
      FinishUnreleased(d1.(working := store), name, undone, closed)
      == if undone && closed then d else if undone then d1 else d1.(working := store)
  {
    RollbackToTop(d, name, store, undone);
    ReleaseTop(d, name, d.working, closed);
    assert Exec(d, Savepoint(name), true).0.(working := d.working) == Exec(d, Savepoint(name), true).0;
  }

  lemma {:induction false} BracketsRun(d: Db, ops: seq<Op>)
    requires Consistent(d) && AllClose(ops)
    ensures RunOps(d, ops) == Settled(d, Meaning(ops, d.working))
    decreases ops
  {
    if ops != [] {
      BracketRuns(d, ops[0]);
      var d1 := Settled(d, Effect(ops[0], d.working));
      BracketsRun(d1, ops[1..]);
    }
  }

  /** One call, over a callback whose own calls all close: it is all or nothing exactly when it closes too. */
  lemma {:induction false} BracketRuns(d: Db, op: Op)
    requires Consistent(d) && (op.Bracket? ==> AllClose(op.body))
    ensures Closes(op) ==> RunOp(d, op).0 == Settled(d, Effect(op, d.working))
    ensures !Closes(op) ==>
      RunOp(d, op).0.saves == d.saves + [Save(op.name, d.working)] && RunOp(d, op).0.durable == d.durable
    ensures op.Bracket? ==>
      (RunOp(d, op).1 <==> op.entered && (if op.throws then op.rolledBack else op.released))
    decreases op
  {
    if op.Bracket? && op.entered {
      var d1, store := Exec(d, Savepoint(op.name), true).0, Meaning(op.body, d.working);
      BracketsRun(d1, op.body);
      assert RunOps(d1, op.body) == d1.(working := store);
      FinishTop(d, op.name, store, op.undone, op.closed);
      if op.throws {
        RollbackToTop(d, op.name, store, op.rolledBack);
        FinishTop(d, op.name, d.working, op.undone, op.closed);
        assert d1.(working := d.working) == d1;
      } else {
        ReleaseTop(d, op.name, store, op.released);
      }
    }
  }

  /**
   * For any tree of brackets that close, any failures and any repeated names: the
   * connection sees the tree's all-or-nothing meaning, so does the disk when it
   * started in autocommit and nothing reaches the disk when it did not, and the
   * savepoint stack and the autocommit flag are as they were.
   */
  lemma BracketsAreAtomic(d: Db, ops: seq<Op>)
    requires Consistent(d) && AllClose(ops)
    ensures var d' := RunOps(d, ops);
      && d'.working == Meaning(ops, d.working)
      && d'.durable == (if d.autocommit then Meaning(ops, d.durable) else d.durable)
      && d'.saves == d.saves && d'.autocommit == d.autocommit && Consistent(d')
  {
    BracketsRun(d, ops);
  }

  /** A throwing callback's bracket has no effect, yet the call reports success: the error stops there. */
  lemma ThrownErrorsAreSwallowed(d: Db, name: string, body: seq<Op>)
    requires Consistent(d) && AllClose(body)
    ensures forall released :: RunOp(d, Bracket(name, true, body, true, released, true, true, true)) == (d, true)
  {
    forall released
      ensures RunOp(d, Bracket(name, true, body, true, released, true, true, true)) == (d, true)
    {
      BracketRuns(d, Bracket(name, true, body, true, released, true, true, true));
    }
  }

  /**
   * Why the destructor matters: with one inner savepoint of the same name left
   * behind, the outer RELEASE succeeds but closes the inner one, and the outer
   * bracket stays open with its writes undecided.
   */
  lemma LeftoverCapturesRelease(d: Db, name: string)
    requires Consistent(d) && d.autocommit
    ensures var outer := Exec(d, Savepoint(name), true).0;
      var leftover := Exec(outer, Savepoint(name), true).0;
      var (after, done) := Exec(leftover, Release(name), true);
      done && after == outer && !after.autocommit
  {
    var outer := Exec(d, Savepoint(name), true).0;
    TopIsInnermost(outer.saves, name, outer.working);
    assert (outer.saves + [Save(name, outer.working)])[..|outer.saves|] == outer.saves;
  }

  // ---- The classes ----------------------------------------------------------

  /** rusqlite's savepoint guard; its drop behaviour stays at the default, rolling back. */
  class SavepointGuard {
    const conn: Connection
    const name: string
    var committed: bool

    constructor (conn: Connection, name: string)
      ensures this.conn == conn && this.name == name && !committed
    {
      this.conn := conn;
      this.name := name;
      committed := false;
    }

    method CommitGuard(ok: bool) returns (done: bool)
      modifies this, conn
      ensures (conn.s.d, done) == Exec(old(conn.s.d), Release(name), ok)
      ensures committed == (old(committed) || done)
    {
      done := conn.ExecuteBatch(Release(name), ok);
      if done {
        committed := true;
      }
    }

    method RollbackGuard(ok: bool) returns (done: bool)
      modifies conn
      ensures (conn.s.d, done) == Exec(old(conn.s.d), RollbackTo(name), ok)
    {
      done := conn.ExecuteBatch(RollbackTo(name), ok);
    }

    method Drop(undone: bool, closed: bool)
      modifies this, conn
      ensures conn.s.d == if old(committed) then old(conn.s.d) else FinishUnreleased(old(conn.s.d), name, undone, closed)
    {
      if committed {
        return;
      }
      var back := RollbackGuard(undone);
      if back {
        var _ := CommitGuard(closed);
      }
    }
  }

  /** The end of `savepoint_with_name`, by the callback's outcome, and the guard's destructor. */
  method LeaveCallback(guard: SavepointGuard, op: Op) returns (done: bool)
    requires op.Bracket? && guard.name == op.name && !guard.committed
    modifies guard, guard.conn
    ensures (guard.conn.s.d, done) == Leave(old(guard.conn.s.d), op)
  {
    if !op.throws {
      done := guard.CommitGuard(op.released);
    } else {
      done := guard.RollbackGuard(op.rolledBack);
    }
    guard.Drop(op.undone, op.closed);
  }

  /** `savepoint_with_name`, with the callback run inside. */
  method SavepointWithName(conn: Connection, op: Op) returns (done: bool)
    requires op.Bracket?
    modifies conn
    ensures (conn.s.d, done) == RunOp(old(conn.s.d), op)
    ensures old(Consistent(conn.s.d)) && Closes(op) && AllClose(op.body) ==>
      conn.s.d == Settled(old(conn.s.d), Effect(op, old(conn.s.d.working)))
    decreases op
  {
    ghost var d := conn.s.d;
    if Consistent(d) && AllClose(op.body) {
      BracketRuns(d, op);
    }
    var inside := conn.ExecuteBatch(Savepoint(op.name), op.entered);
    if !inside {
      return false;
    }
    var guard := new SavepointGuard(conn, op.name);
    RunCallback(conn, op.body);
    done := LeaveCallback(guard, op);
  }

  method RunCallback(conn: Connection, ops: seq<Op>)
    modifies conn
    ensures conn.s.d == RunOps(old(conn.s.d), ops)
    decreases ops
  {
    var rest := ops;
    while rest != []
      invariant |rest| <= |ops| && rest == ops[|ops| - |rest|..]
      invariant RunOps(conn.s.d, rest) == RunOps(old(conn.s.d), ops)
      decreases |rest|
    {
      assert rest[0] in ops;
      match rest[0]
      case Put(key, value, ok) =>
        var _ := conn.ExecuteBatch(Write(key, value), ok);
        rest := rest[1..];
      case Bracket(_, _, _, _, _, _, _, _) =>
        var _ := SavepointWithName(conn, rest[0]);
        rest := rest[1..];
    }
  }
}
