// One connection's transaction state: what is durable, what the connection
// sees, the autocommit flag and the stack of savepoints.
module Sessions {
  import opened AsciiNames

  type Store = map<string, int>

  datatype Save = Save(name: string, snapshot: Store)

  datatype Mode = Deferred | Immediate | Exclusive

  datatype Call =
    | Begin(mode: Mode)
    | Commit
    | Rollback
    | Write(key: string, value: int)
    | Savepoint(name: string)
    | Release(name: string)
    | RollbackTo(name: string)

  /** `saves` has the innermost savepoint last; `bySavepoint` says a savepoint opened the transaction. */
  datatype Db = Db(durable: Store, working: Store, autocommit: bool, saves: seq<Save>, bySavepoint: bool)

  /** Outside a transaction there is nothing undecided. */
  ghost predicate Consistent(d: Db) {
    && (d.autocommit ==> d.working == d.durable && d.saves == [] && !d.bySavepoint)
    && (d.bySavepoint ==> d.saves != [])
  }

  /** One more than the position of the innermost savepoint of this name, or 0. */
  function Innermost(saves: seq<Save>, name: string): (n: nat)
    ensures n <= |saves|
    ensures n > 0 ==> SameName(saves[n - 1].name, name)
    ensures forall i | n <= i < |saves| :: !SameName(saves[i].name, name)
  {
    if saves == [] || SameName(saves[|saves| - 1].name, name) then |saves|
    else Innermost(saves[..|saves| - 1], name)
  }

  /** Running one statement; `ok` is whether the library manages what SQL allows. */
  function Exec(d: Db, call: Call, ok: bool): (Db, bool) {
    match call
    case Begin(_) =>
      if ok && d.autocommit then (d.(autocommit := false), true) else (d, false)
    case Commit =>
      if ok && !d.autocommit then (Db(d.working, d.working, true, [], false), true) else (d, false)
    case Rollback =>
      if ok && !d.autocommit then (Db(d.durable, d.durable, true, [], false), true) else (d, false)
    case Write(key, value) =>
      if ok then
        var working := d.working[key := value];
        (d.(working := working, durable := if d.autocommit then working else d.durable), true)
      else (d, false)
    case Savepoint(name) =>
      if ok then
        (d.(autocommit := false, saves := d.saves + [Save(name, d.working)], bySavepoint := d.bySavepoint || d.autocommit),
         true)
      else (d, false)
    case Release(name) =>
      var n := Innermost(d.saves, name);
      if !ok || n == 0 then (d, false)
      else if n == 1 && d.bySavepoint then (Db(d.working, d.working, true, [], false), true)
      else (d.(saves := d.saves[..n - 1]), true)
    case RollbackTo(name) =>
      var n := Innermost(d.saves, name);
      if !ok || n == 0 then (d, false)
      else (d.(working := d.saves[n - 1].snapshot, saves := d.saves[..n]), true)
  }

  lemma ExecKeepsConsistent(d: Db, call: Call, ok: bool)
    requires Consistent(d)
    ensures Consistent(Exec(d, call, ok).0)
  {
  }

  /** The session, with the statements that succeeded so far as its history. */
  datatype Session = Session(d: Db, log: seq<Call>)

  function Issue(s: Session, call: Call, ok: bool): (Session, bool) {
    var (d, done) := Exec(s.d, call, ok);
    (Session(d, if done then s.log + [call] else s.log), done)
  }

  class Connection {
    var s: Session

    constructor (durable: Store)
      ensures s == Session(Db(durable, durable, true, [], false), [])
    {
      s := Session(Db(durable, durable, true, [], false), []);
    }

    /** `execute_batch` of one statement. */
    method ExecuteBatch(call: Call, ok: bool) returns (done: bool)
      modifies this
      ensures (s, done) == Issue(old(s), call, ok)
    {
      var (s', done') := Issue(s, call, ok);
      s := s';
      return done';
    }
  }
}
