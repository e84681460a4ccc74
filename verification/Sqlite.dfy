// The C library as the Rust layer sees it: result codes, statement handles and
// the documented effect of the calls made on one handle.
module Sqlite {
  import opened Wrappers

  const SQLITE_OK := 0
  const SQLITE_BUSY := 5
  const SQLITE_LOCKED := 6
  const SQLITE_TOOBIG := 18
  const SQLITE_MISUSE := 21
  const SQLITE_RANGE := 25
  const SQLITE_ROW := 100
  const SQLITE_DONE := 101
  const SQLITE_LOCKED_SHAREDCACHE := 262

  datatype Value =
    | Null | Integer(i: int) | Real(r: real) | Text(s: string) | Blob(b: seq<bv8>)
    | ZeroBlob(len: int)  // that many zero bytes
    | Pointer(id: nat)    // a host pointer, which SQL sees as null

  /** What converting a caller's argument gave: a value to bind, or an error of its own. */
  datatype Param = Give(value: Value) | Refuse(error: Error)

  datatype Error =
    | SqliteFailure(code: int)
    | InvalidParameterCount(given: nat, expected: nat)
    | InvalidParameterName(name: string)
    | ExecuteReturnedResults
    | QueryReturnedNoRows
    | QueryReturnedMoreThanOneRow
    | StatementChangedRows(changes: nat)
    | MultipleStatement
    | MapperFailed

  /**
   * What preparing a text gives: an error, nothing (blank text or a comment), or a
   * program. A text is refused for a segment that does not compile or for a second
   * statement; `made` segments had compiled by then and are thrown away.
   */
  datatype Compiled = Rejected(error: Error, made: nat) | NoStatement | Program

  datatype Stepped<+D, +C> = Stepped(db: D, cursor: C, rc: int, row: seq<Value>)

  /** A statement handle's contents; `bindings[i]` is parameter `i + 1`. */
  datatype Stmt<+C> = Stmt(text: string, bindings: seq<Value>, cursor: C)

  /**
   * The engine, left arbitrary: a database of type `D`, a private execution
   * position of type `C`, and functions saying how each call behaves. A
   * statement's behaviour depends only on the database, its text, its bindings
   * and its position, because SQLite recompiles a stale program on its own.
   */
  datatype Engine<!D, !C> = Engine(
    compile: (D, string) -> Compiled,
    paramCount: string -> nat,
    paramIndex: (string, string) -> Option<nat>,
    readOnlyRows: string -> bool,
    bindRc: Value -> int,
    start: C,
    step: (D, string, seq<Value>, C) -> Stepped<D, C>,
    reset: (D, string, seq<Value>, C) -> (D, int),
    changes: D -> nat,
    rowid: D -> int)

  /** The database together with one handle; `None` is the null handle. */
  datatype View<+D, +C> = View(db: D, st: Option<Stmt<C>>)

  function Nulls(n: nat): seq<Value> {
    seq(n, _ => Null)
  }

  function ParamCount<D, C>(v: View<D, C>): nat {
    if v.st.None? then 0 else |v.st.value.bindings|
  }

  /** sqlite3_step. */
  function CStep<D, C>(e: Engine<D, C>, v: View<D, C>): (View<D, C>, int, seq<Value>) {
    match v.st
    case None => (v, SQLITE_MISUSE, [])
    case Some(s) =>
      var o := e.step(v.db, s.text, s.bindings, s.cursor);
      (View(o.db, Some(s.(cursor := o.cursor))), o.rc, o.row)
  }

  /** sqlite3_reset: back to the start, bindings kept. */
  function CReset<D, C>(e: Engine<D, C>, v: View<D, C>): (View<D, C>, int) {
    match v.st
    case None => (v, SQLITE_OK)
    case Some(s) =>
      var (db, rc) := e.reset(v.db, s.text, s.bindings, s.cursor);
      (View(db, Some(s.(cursor := e.start))), rc)
  }

  /** sqlite3_bind_*: a refused value leaves the parameter NULL. */
  function CBind<D, C(==)>(e: Engine<D, C>, v: View<D, C>, i: nat, x: Value): (View<D, C>, int) {
    match v.st
    case None => (v, SQLITE_MISUSE)
    case Some(s) =>
      if s.cursor != e.start then (v, SQLITE_MISUSE)
      else if i < 1 || i > |s.bindings| then (v, SQLITE_RANGE)
      else
        var stored := if e.bindRc(x) == SQLITE_OK then x else Null;
        (v.(st := Some(s.(bindings := s.bindings[i - 1 := stored]))), e.bindRc(x))
  }

  /** sqlite3_clear_bindings. */
  function CClear<D, C>(v: View<D, C>): View<D, C> {
    match v.st
    case None => v
    case Some(s) => v.(st := Some(s.(bindings := Nulls(|s.bindings|))))
  }

  /**
   * The library's table of handles. Handles are numbered from 1 in order of
   * creation, 0 is null. `faulted` records a call the C interface forbids.
   */
  datatype Lib<+D, +C> = Lib(
    db: D,
    open: map<nat, Stmt<C>>,
    created: nat,
    finalized: seq<nat>,
    faulted: bool)

  function At<D, C>(l: Lib<D, C>, p: nat): View<D, C> {
    View(l.db, if p in l.open then Some(l.open[p]) else None)
  }

  function Put<D, C>(l: Lib<D, C>, p: nat, v: View<D, C>): Lib<D, C> {
    if v.st.Some? then l.(db := v.db, open := l.open[p := v.st.value]) else l.(db := v.db)
  }

  /** sqlite3_finalize: a no-op on null, forbidden on a handle that is not open. */
  function CFinalize<D, C>(l: Lib<D, C>, p: nat): Lib<D, C> {
    if p == 0 then l
    else if p in l.open then l.(open := l.open - {p}, finalized := l.finalized + [p])
    else l.(faulted := true)
  }

  /** Handles that are created and finalized again at once. */
  function Discarded<D, C>(l: Lib<D, C>, n: nat): (r: Lib<D, C>)
    ensures r.open == l.open && r.db == l.db && r.created == l.created + n
    decreases n
  {
    if n == 0 then l
    else Discarded(l.(created := l.created + 1, finalized := l.finalized + [l.created + 1]), n - 1)
  }

  /** Preparing a whole text, of which at most one segment may be a statement. */
  function CPrepare<D, C>(e: Engine<D, C>, l: Lib<D, C>, text: string): (Lib<D, C>, Result<nat, Error>) {
    match e.compile(l.db, text)
    case Rejected(error, made) => (Discarded(l, made), Failure(error))
    case NoStatement => (l, Success(0))
    case Program =>
      var p := l.created + 1;
      (l.(open := l.open[p := Stmt(text, Nulls(e.paramCount(text)), e.start)], created := p), Success(p))
  }

  lemma PutOver<D, C>(l: Lib<D, C>, p: nat, v: View<D, C>, v': View<D, C>)
    requires v.st.Some? <==> p in l.open
    requires v'.st.Some? <==> p in l.open
    ensures At(Put(l, p, v), p) == v
    ensures Put(Put(l, p, v), p, v') == Put(l, p, v')
    ensures Put(l, p, At(l, p)) == l
  {
    if p in l.open {
      assert l.open[p := v.st.value][p := v'.st.value] == l.open[p := v'.st.value];
      assert l.open[p := l.open[p]] == l.open;
    }
  }

  /** The library as the object every statement of a connection calls into. */
  class Library<D(==), C(==)> {
    const e: Engine<D, C>
    var s: Lib<D, C>

    constructor (e: Engine<D, C>, db: D)
      ensures this.e == e && s == Lib(db, map[], 0, [], false)
    {
      this.e := e;
      s := Lib(db, map[], 0, [], false);
    }

    method Step(p: nat) returns (rc: int, row: seq<Value>)
      modifies this
      ensures s == Put(old(s), p, CStep(e, At(old(s), p)).0)
      ensures (rc, row) == (CStep(e, At(old(s), p)).1, CStep(e, At(old(s), p)).2)
    {
      var r := CStep(e, At(s, p));
      s := Put(s, p, r.0);
      return r.1, r.2;
    }

    method Reset(p: nat) returns (rc: int)
      modifies this
      ensures s == Put(old(s), p, CReset(e, At(old(s), p)).0)
      ensures rc == CReset(e, At(old(s), p)).1
    {
      var r := CReset(e, At(s, p));
      s := Put(s, p, r.0);
      return r.1;
    }

    method Bind(p: nat, i: nat, x: Value) returns (rc: int)
      modifies this
      ensures s == Put(old(s), p, CBind(e, At(old(s), p), i, x).0)
      ensures rc == CBind(e, At(old(s), p), i, x).1
    {
      var r := CBind(e, At(s, p), i, x);
      s := Put(s, p, r.0);
      return r.1;
    }

    method ClearBindings(p: nat)
      modifies this
      ensures s == Put(old(s), p, CClear(At(old(s), p)))
    {
      s := Put(s, p, CClear(At(s, p)));
    }

    method Finalize(p: nat)
      requires p == 0 || p in s.open
      modifies this
      ensures s == CFinalize(old(s), p)
    {
      s := CFinalize(s, p);
    }

    method Prepare(text: string) returns (r: Result<nat, Error>)
      modifies this
      ensures s == CPrepare(e, old(s), text).0 && r == CPrepare(e, old(s), text).1
    {
      var (l, res) := CPrepare(e, s, text);
      s := l;
      return res;
    }
  }
}
