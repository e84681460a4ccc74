// Texts of several statements: splitting by the compiler's tail, running a
// batch, and refusing more than one statement where one is wanted.
//
// A text is the sequence of its bytes. The compiler is arbitrary, including
// where it says the next statement begins.
module Batches {
  import opened Wrappers
  import opened Sqlite

  const INT_MAX := 0x7FFF_FFFF

  /** sqlite3_prepare_v3: a statement or none, and where the rest begins, if a tail pointer was set. */
  datatype Compilation<+S> = Bad(code: int) | Good(stmt: Option<S>, tail: Option<int>)

  datatype Compiler<!D, !S> = Compiler(
    compile: (D, string, nat) -> Compilation<S>,
    step: (D, S) -> (D, int))

  datatype Piece<+S> = Piece(stmt: Option<S>, tail: nat)

  /** `InnerConnection::prepare`: a tail is reported as 0 unless it lies strictly inside the text. */
  function Prepare<D, S>(c: Compiler<D, S>, d: D, text: string, flags: nat): (r: Result<Piece<S>, Error>)
    ensures r.Success? ==> r.value.tail == 0 || r.value.tail < |text|
  {
    if |text| > INT_MAX then Failure(SqliteFailure(SQLITE_TOOBIG))
    else
      match c.compile(d, text, flags)
      case Bad(code) => Failure(SqliteFailure(code))
      case Good(stmt, tail) =>
        Success(Piece(stmt, if tail.None? || tail.value <= 0 || tail.value >= |text| then 0 else tail.value))
  }

  /** `Statement::step`: only a row or completion is not an error. */
  function StepError(rc: int): Option<Error> {
    if rc == SQLITE_ROW || rc == SQLITE_DONE then None else Some(SqliteFailure(rc))
  }

  // ---- Running a text ------------------------------------------------------

  /** The database afterwards, the statements stepped, each once and in order, and the first error. */
  datatype Outcome<+D, +S> = Outcome(db: D, stepped: seq<S>, error: Option<Error>)

  function RunText<D, S>(c: Compiler<D, S>, d: D, text: string): Outcome<D, S>
    decreases |text|
  {
    if text == [] then Outcome(d, [], None)
    else
      match Prepare(c, d, text, 0)
      case Failure(err) => Outcome(d, [], Some(err))
      case Success(Piece(None, tail)) =>
        if tail == 0 then Outcome(d, [], None) else RunText(c, d, text[tail..])
      case Success(Piece(Some(s), tail)) =>
        var (d1, rc) := c.step(d, s);
        if StepError(rc).Some? then Outcome(d1, [s], StepError(rc))
        else if tail == 0 then Outcome(d1, [s], None)
        else After([s], RunText(c, d1, text[tail..]))
  }

  function After<D, S>(before: seq<S>, rest: Outcome<D, S>): Outcome<D, S> {
    rest.(stepped := before + rest.stepped)
  }

  lemma AfterAfter<D, S>(a: seq<S>, b: seq<S>, rest: Outcome<D, S>)
    ensures After(a, After(b, rest)) == After(a + b, rest)
    ensures After([], rest) == rest
  {
    assert a + (b + rest.stepped) == (a + b) + rest.stepped;
    assert [] + rest.stepped == rest.stepped;
  }

  method ExecuteBatch<D, S>(c: Compiler<D, S>, db: D, text: string) returns (out: Outcome<D, S>)
    ensures out == RunText(c, db, text)
  {
    var d, stepped, sql := db, [], text;
    AfterAfter([], [], RunText(c, d, sql));
    while sql != []
      invariant RunText(c, db, text) == After(stepped, RunText(c, d, sql))
      decreases |sql|
    {
      var piece := Prepare(c, d, sql, 0);
      if piece.Failure? {
        return Outcome(d, stepped, Some(piece.error));
      }
      var (stmt, tail) := (piece.value.stmt, piece.value.tail);
      if stmt.Some? {
        AfterAfter(stepped, [stmt.value], RunText(c, c.step(d, stmt.value).0, sql[tail..]));
        var (d', rc) := c.step(d, stmt.value);
        d, stepped := d', stepped + [stmt.value];
        if StepError(rc).Some? {
          return Outcome(d, stepped, StepError(rc));
        }
      }
      if tail == 0 || tail >= |sql| {
        break;
      }
      sql := sql[tail..];
    }
    out := Outcome(d, stepped, None);
  }

  /** The next statement that is not empty, and where the one after it begins. */
  function NextOf<D, S>(c: Compiler<D, S>, d: D, sql: string, tail: nat): (Result<Option<S>, Error>, nat)
    requires tail <= |sql|
    decreases |sql| - tail
  {
    if tail == |sql| then (Success(None), tail)
    else
      match Prepare(c, d, sql[tail..], 0)
      case Failure(err) => (Failure(err), tail)
      case Success(Piece(stmt, t)) =>
        var tail' := if t == 0 then |sql| else tail + t;
        if stmt.Some? then (Success(stmt), tail') else NextOf(c, d, sql, tail')
  }

  /** What `next` says of the rest of the text is what running it would do first. */
  lemma {:induction false} NextIsFirstOfRest<D, S>(c: Compiler<D, S>, d: D, sql: string, tail: nat)
    requires tail <= |sql|
    ensures var (r, tail') := NextOf(c, d, sql, tail);
      && tail <= tail' <= |sql|
      && (r.Success? && r.value.Some? ==> tail < tail')
      && RunText(c, d, sql[tail..])
         == match r
            case Failure(err) => Outcome(d, [], Some(err))
            case Success(None) => Outcome(d, [], None)
            case Success(Some(s)) =>
              var (d1, rc) := c.step(d, s);
              if StepError(rc).Some? then Outcome(d1, [s], StepError(rc))
              else After([s], RunText(c, d1, sql[tail'..]))
    decreases |sql| - tail
  {
    if tail < |sql| {
      var piece := Prepare(c, d, sql[tail..], 0);
      if piece.Success? {
        var t := piece.value.tail;
        var tail' := if t == 0 then |sql| else tail + t;
        assert t != 0 ==> sql[tail..][t..] == sql[tail'..];
        assert sql[|sql|..] == [];
        if piece.value.stmt.None? {
          NextIsFirstOfRest(c, d, sql, tail');
        } else {
          var d1 := c.step(d, piece.value.stmt.value).0;
          if t == 0 {
            assert After([piece.value.stmt.value], RunText(c, d1, sql[tail'..])).stepped == [piece.value.stmt.value];
          }
        }
      }
    }
  }

  class Batch {
    const sql: string
    var tail: nat

    constructor (sql: string)
      ensures this.sql == sql && tail == 0
    {
      this.sql := sql;
      tail := 0;
    }

    method Next<D, S>(c: Compiler<D, S>, d: D) returns (r: Result<Option<S>, Error>)
      requires tail <= |sql|
      modifies this
      ensures tail <= |sql| && (r, tail) == NextOf(c, d, sql, old(tail))
    {
      NextIsFirstOfRest(c, d, sql, tail);
      while tail < |sql|
        invariant tail <= |sql|
        invariant NextOf(c, d, sql, old(tail)) == NextOf(c, d, sql, tail)
        decreases |sql| - tail
      {
        NextIsFirstOfRest(c, d, sql, tail);
        var piece := Prepare(c, d, sql[tail..], 0);
        if piece.Failure? {
          return Failure(piece.error);
        }
        if piece.value.tail == 0 {
          tail := |sql|;
        } else {
          tail := tail + piece.value.tail;
        }
        if piece.value.stmt.None? {
          continue;
        }
        return Success(piece.value.stmt);
      }
      r := Success(None);
    }
  }

  /** A caller that steps each statement of a batch before asking for the next does what execute_batch does. */
  method StepEach<D, S>(c: Compiler<D, S>, db: D, text: string) returns (out: Outcome<D, S>)
    ensures out == RunText(c, db, text)
  {
    var batch := new Batch(text);
    var d, stepped := db, [];
    AfterAfter([], [], RunText(c, d, text));
    assert text[0..] == text;
    while true
      invariant fresh(batch) && batch.sql == text && batch.tail <= |text|
      invariant RunText(c, db, text) == After(stepped, RunText(c, d, text[batch.tail..]))
      decreases |text| - batch.tail
    {
      NextIsFirstOfRest(c, d, text, batch.tail);
      var next := batch.Next(c, d);
      match next
      case Failure(err) => return Outcome(d, stepped, Some(err));
      case Success(None) => return Outcome(d, stepped, None);
      case Success(Some(s)) =>
        var (d', rc) := c.step(d, s);
        AfterAfter(stepped, [s], RunText(c, d', text[batch.tail..]));
        d, stepped := d', stepped + [s];
        if StepError(rc).Some? {
          return Outcome(d, stepped, StepError(rc));
        }
    }
  }

  // ---- One statement only ----------------------------------------------------

  /** `Connection::prepare_with_flags`. */
  function PrepareOne<D, S>(c: Compiler<D, S>, d: D, text: string, flags: nat): Result<Option<S>, Error>
    decreases |text|
  {
    match Prepare(c, d, text, flags)
    case Failure(err) => Failure(err)
    case Success(Piece(stmt, tail)) =>
      if tail == 0 then Success(stmt)
      else
        match PrepareOne(c, d, text[tail..], 0)
        case Failure(err) => Failure(err)
        case Success(Some(_)) => Failure(MultipleStatement)
        case Success(None) => Success(stmt)
  }

  /** The text cut where the compiler says, up to the first segment that does not compile. */
  function Segments<D, S>(c: Compiler<D, S>, d: D, text: string, flags: nat): (segs: seq<Result<Option<S>, Error>>)
    ensures segs != []
    ensures forall i | 0 <= i < |segs| - 1 :: segs[i].Success?
    decreases |text|
  {
    match Prepare(c, d, text, flags)
    case Failure(err) => [Failure(err)]
    case Success(Piece(stmt, tail)) =>
      [Success(stmt)] + if tail == 0 then [] else Segments(c, d, text[tail..], 0)
  }

  /**
   * What to make of the segments: a segment that does not compile decides the
   * error, even after a second statement; otherwise only the first may be a
   * statement.
   */
  function Verdict<S(==)>(segs: seq<Result<Option<S>, Error>>): Result<Option<S>, Error>
    requires segs != []
  {
    if segs[|segs| - 1].Failure? then segs[|segs| - 1]
    else if exists i | 1 <= i < |segs| :: segs[i] != Success(None) then Failure(MultipleStatement)
    else segs[0]
  }

  lemma VerdictOfMore<S>(stmt: Option<S>, rest: seq<Result<Option<S>, Error>>)
    requires rest != [] && forall i | 0 <= i < |rest| - 1 :: rest[i].Success?
    ensures Verdict([Success(stmt)] + rest)
         == match Verdict(rest)
            case Failure(err) => Failure(err)
            case Success(Some(_)) => Failure(MultipleStatement)
            case Success(None) => Success(stmt)
  {
    var all := [Success(stmt)] + rest;
    assert forall i | 1 <= i < |all| :: all[i] == rest[i - 1];
    if i :| 1 <= i < |rest| && rest[i] != Success(None) {
      assert all[i + 1] == rest[i];
    }
    if rest[0] != Success(None) {
      assert all[1] == rest[0];
    }
  }

  /** A text is accepted exactly when every segment compiles and all but the first compile to nothing. */
  lemma {:induction false} OneStatementExactly<D, S>(c: Compiler<D, S>, d: D, text: string, flags: nat)
    ensures PrepareOne(c, d, text, flags) == Verdict(Segments(c, d, text, flags))
    decreases |text|
  {
    var piece := Prepare(c, d, text, flags);
    if piece.Success? && piece.value.tail != 0 {
      OneStatementExactly(c, d, text[piece.value.tail..], 0);
      VerdictOfMore(piece.value.stmt, Segments(c, d, text[piece.value.tail..], 0));
    }
  }

  // ---- Where the compiler cuts --------------------------------------------------------

  /** The compiler ends a segment after `n` bytes, strictly inside the text. */
  ghost predicate Cuts<D, S>(c: Compiler<D, S>, d: D, text: string, flags: nat, stmt: Option<S>, n: nat) {
    0 < n < |text| <= INT_MAX && c.compile(d, text, flags) == Good(stmt, Some(n))
  }

  /** The compiler takes the whole text for one segment: it sets no tail, or none strictly inside. */
  ghost predicate TakesAll<D, S>(c: Compiler<D, S>, d: D, text: string, flags: nat, stmt: Option<S>) {
    && |text| <= INT_MAX
    && match c.compile(d, text, flags)
       case Bad(_) => false
       case Good(s, tail) => s == stmt && (tail.None? || tail.value <= 0 || tail.value >= |text|)
  }

  /** Why a text cannot be compiled, if it cannot: its length, before the compiler is asked, or the compiler's code. */
  function Refusal<D, S>(c: Compiler<D, S>, d: D, text: string, flags: nat): Option<Error> {
    if |text| > INT_MAX then Some(SqliteFailure(SQLITE_TOOBIG))
    else
      match c.compile(d, text, flags)
      case Bad(code) => Some(SqliteFailure(code))
      case Good(_, _) => None
  }

  /** Running goes on with exactly the bytes after the cut, once a statement before it has been stepped well. */
  lemma RunsTheRest<D, S>(c: Compiler<D, S>, d: D, text: string, stmt: Option<S>, n: nat)
    requires Cuts(c, d, text, 0, stmt, n)
    ensures RunText(c, d, text)
         == match stmt
            case None => RunText(c, d, text[n..])
            case Some(s) =>
              var (d1, rc) := c.step(d, s);
              if rc == SQLITE_ROW || rc == SQLITE_DONE then After([s], RunText(c, d1, text[n..]))
              else Outcome(d1, [s], Some(SqliteFailure(rc)))
  {
  }

  /** The last segment is run, and nothing after it; a refused one ends the run with its error. */
  lemma RunsTheLast<D, S>(c: Compiler<D, S>, d: D, text: string, stmt: Option<S>)
    ensures RunText(c, d, []) == Outcome(d, [], None)
    ensures text != [] && TakesAll(c, d, text, 0, stmt) ==>
      RunText(c, d, text)
      == match stmt
         case None => Outcome(d, [], None)
         case Some(s) =>
           var (d1, rc) := c.step(d, s);
           Outcome(d1, [s], if rc == SQLITE_ROW || rc == SQLITE_DONE then None else Some(SqliteFailure(rc)))
    ensures text != [] && Refusal(c, d, text, 0).Some? ==> RunText(c, d, text) == Outcome(d, [], Refusal(c, d, text, 0))
  {
  }

  /** `next` gives the statement and stands right after it, or looks on from there. */
  lemma NextStandsAfterTheCut<D, S>(c: Compiler<D, S>, d: D, sql: string, at: nat, stmt: Option<S>, n: nat)
    requires at <= |sql| && Cuts(c, d, sql[at..], 0, stmt, n)
    ensures NextOf(c, d, sql, at) == if stmt.Some? then (Success(stmt), at + n) else NextOf(c, d, sql, at + n)
  {
  }

  /** After the last segment `next` stands at the end; a refused one leaves it where it was. */
  lemma NextStandsAtTheEnd<D, S>(c: Compiler<D, S>, d: D, sql: string, at: nat, stmt: Option<S>)
    requires at <= |sql|
    ensures NextOf(c, d, sql, |sql|) == (Success(None), |sql|)
    ensures at < |sql| && TakesAll(c, d, sql[at..], 0, stmt) ==> NextOf(c, d, sql, at) == (Success(stmt), |sql|)
    ensures at < |sql| && Refusal(c, d, sql[at..], 0).Some? ==>
      NextOf(c, d, sql, at) == (Failure(Refusal(c, d, sql[at..], 0).value), at)
  {
  }

  /** What is to be made of a segment, by what the rest gives. */
  function Only<S>(stmt: Option<S>, rest: Result<Option<S>, Error>): Result<Option<S>, Error> {
    match rest
    case Failure(err) => Failure(err)
    case Success(Some(_)) => Failure(MultipleStatement)
    case Success(None) => Success(stmt)
  }

  /** Single-statement prepare looks at exactly the bytes after the cut, with the default flags. */
  lemma PreparesTheRest<D, S>(c: Compiler<D, S>, d: D, text: string, flags: nat, stmt: Option<S>, n: nat)
    ensures Cuts(c, d, text, flags, stmt, n) ==>
      PrepareOne(c, d, text, flags) == Only(stmt, PrepareOne(c, d, text[n..], 0))
    ensures TakesAll(c, d, text, flags, stmt) ==> PrepareOne(c, d, text, flags) == Success(stmt)
    ensures Refusal(c, d, text, flags).Some? ==>
      PrepareOne(c, d, text, flags) == Failure(Refusal(c, d, text, flags).value)
  {
  }
}
