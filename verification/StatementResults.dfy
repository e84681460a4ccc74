// When binding, executing and querying succeed, what they report when they do
// not, and what they leave in the handle, said from the arguments and from bare
// steps of the library.
module StatementResults {
  import opened Wrappers
  import opened Sqlite
  import opened Statements

  // ---- Positional binding ------------------------------------------------------

  ghost predicate Resting<D, C>(e: Engine<D, C>, v: View<D, C>) {
    v.st.Some? ==> v.st.value.cursor == e.start
  }

  /** `v'` is `v` but for the values of its parameters. */
  ghost predicate OnlyBindingsDiffer<D, C>(v: View<D, C>, v': View<D, C>) {
    && v'.db == v.db && (v.st.Some? <==> v'.st.Some?)
    && (v.st.Some? ==>
          && v'.st.value.text == v.st.value.text && v'.st.value.cursor == v.st.value.cursor
          && |v'.st.value.bindings| == |v.st.value.bindings|)
  }

  /**
   * Positional binding succeeds exactly when there is an argument for each
   * parameter and no more, each of them binds, and the statement is at rest; every
   * parameter then holds its own argument.
   */
  lemma BindsExactly<D, C>(e: Engine<D, C>, v: View<D, C>, params: seq<Param>)
    ensures BindAll(e, v, params).1.None?
       <==> && |params| == ParamCount(v)
            && (params != [] ==> Resting(e, v))
            && forall i | 0 <= i < |params| :: Binds(e, params[i])
    ensures OnlyBindingsDiffer(v, BindAll(e, v, params).0)
    ensures BindAll(e, v, params).1.None? && v.st.Some? ==>
      forall i | 0 <= i < |params| :: BindAll(e, v, params).0.st.value.bindings[i] == params[i].value
  {
    var n := Min(|params|, ParamCount(v));
    assert params[..|params|] == params;
    assert FirstBad(e, params, 0, n) < n ==> !Binds(e, params[FirstBad(e, params, 0, n)]);
  }

  /** With the wrong number of good arguments, those that have a parameter are bound and the counts are reported. */
  lemma WrongCount<D, C>(e: Engine<D, C>, v: View<D, C>, params: seq<Param>)
    requires |params| != ParamCount(v) && Resting(e, v)
    requires forall i | 0 <= i < |params| && i < ParamCount(v) :: Binds(e, params[i])
    ensures BindAll(e, v, params).1
         == Some(InvalidParameterCount(if |params| < ParamCount(v) then |params| else ParamCount(v) + 1, ParamCount(v)))
    ensures forall i | 0 <= i < ParamCount(v) ::
      BindAll(e, v, params).0.st.value.bindings[i] == if i < |params| then params[i].value else v.st.value.bindings[i]
  {
    var n := Min(|params|, ParamCount(v));
    assert forall i | 0 <= i < n :: params[..n][i] == params[i];
  }

  /**
   * The first bad argument is the one reported: with its own error if it does not
   * convert, and with the library's code, its parameter left NULL, if it is
   * refused. Arguments before it are bound and later parameters keep their values.
   */
  lemma FirstBadIsReported<D, C>(e: Engine<D, C>, v: View<D, C>, params: seq<Param>, k: nat)
    requires k < |params| && k < ParamCount(v) && Resting(e, v)
    requires !Binds(e, params[k]) && forall i | 0 <= i < k :: Binds(e, params[i])
    ensures var (v', err) := BindAll(e, v, params);
      && err == Some(if params[k].Refuse? then params[k].error else SqliteFailure(e.bindRc(params[k].value)))
      && forall i | 0 <= i < ParamCount(v) ::
           v'.st.value.bindings[i]
           == if i < k then params[i].value
              else if i == k && params[k].Give? then Null
              else v.st.value.bindings[i]
  {
    var n := Min(|params|, ParamCount(v));
    var f := FirstBad(e, params, 0, n);
    assert f < n ==> !Binds(e, params[f]);
    assert f == k;
    assert forall i | 0 <= i < k :: params[..k][i] == params[i];
  }

  /** On a statement that is not at rest nothing binds: the first argument's own error, or misuse. */
  lemma BusyIsMisused<D, C>(e: Engine<D, C>, v: View<D, C>, params: seq<Param>)
    requires !Resting(e, v) && params != [] && ParamCount(v) > 0
    ensures BindAll(e, v, params)
         == (v, Some(if params[0].Refuse? then params[0].error else SqliteFailure(SQLITE_MISUSE)))
  {
  }

  // ---- Named binding -----------------------------------------------------------

  /** What is wrong with one pair for this statement, if anything. */
  function PairError<D, C(==)>(e: Engine<D, C>, v: View<D, C>, pair: (string, Param)): Option<Error> {
    match ParameterIndex(e, v, pair.0)
    case None => Some(InvalidParameterName(pair.0))
    case Some(i) =>
      if pair.1.Refuse? then Some(pair.1.error)
      else if v.st.value.cursor != e.start then Some(SqliteFailure(SQLITE_MISUSE))
      else if i < 1 || i > ParamCount(v) then Some(SqliteFailure(SQLITE_RANGE))
      else if e.bindRc(pair.1.value) != SQLITE_OK then Some(SqliteFailure(e.bindRc(pair.1.value)))
      else None
  }

  function FirstError<D, C(==)>(e: Engine<D, C>, v: View<D, C>, pairs: seq<(string, Param)>): (err: Option<Error>)
    ensures err.None? <==> forall i | 0 <= i < |pairs| :: PairError(e, v, pairs[i]).None?
  {
    if pairs == [] then None
    else if PairError(e, v, pairs[0]).Some? then PairError(e, v, pairs[0])
    else FirstError(e, v, pairs[1..])
  }

  lemma {:induction false} SameFirstError<D, C>(e: Engine<D, C>, v: View<D, C>, v': View<D, C>, pairs: seq<(string, Param)>)
    requires OnlyBindingsDiffer(v, v')
    ensures FirstError(e, v, pairs) == FirstError(e, v', pairs)
  {
    if pairs != [] {
      assert PairError(e, v, pairs[0]) == PairError(e, v', pairs[0]);
      SameFirstError(e, v, v', pairs[1..]);
    }
  }

  /** Named binding reports the first pair that is wrong for the statement as it was before any was bound. */
  lemma {:induction false} NamedReportsTheFirst<D, C>(e: Engine<D, C>, v: View<D, C>, pairs: seq<(string, Param)>)
    ensures BindNamed(e, v, pairs).1 == FirstError(e, v, pairs)
    ensures OnlyBindingsDiffer(v, BindNamed(e, v, pairs).0)
    decreases |pairs|
  {
    if pairs != [] && PairError(e, v, pairs[0]).None? {
      var v' := BindOne(e, v, ParameterIndex(e, v, pairs[0].0).value, pairs[0].1).0;
      NamedReportsTheFirst(e, v', pairs[1..]);
      SameFirstError(e, v, v', pairs[1..]);
    }
  }

  // ---- Executing ---------------------------------------------------------------

  /** A read-only statement that gives columns: the only kind `execute` refuses unstepped. */
  predicate IsQuery<D, C>(e: Engine<D, C>, v: View<D, C>) {
    v.st.Some? && e.readOnlyRows(v.st.value.text)
  }

  /**
   * Execution succeeds exactly when the statement is no query and its one step is
   * Done and its one reset reports nothing, with the count of changes as of then. It
   * reports a row, else the step's code, else the reset's; and it leaves the
   * statement stepped once and reset, or untouched if it was a query.
   */
  lemma ExecutesExactly<D, C>(e: Engine<D, C>, v: View<D, C>)
    ensures var (v', r) := ExecuteBound(e, v);
      var (after, rr) := CReset(e, AfterSteps(e, v, 1));
      && v' == (if IsQuery(e, v) then v else after)
      && (r.Success? <==> !IsQuery(e, v) && StepRc(e, v, 0) == SQLITE_DONE && rr == SQLITE_OK)
      && (r.Success? ==> r.value == e.changes(after.db))
      && (r.Failure? ==>
            r.error == if IsQuery(e, v) || StepRc(e, v, 0) == SQLITE_ROW then ExecuteReturnedResults
                       else if StepRc(e, v, 0) != SQLITE_DONE then SqliteFailure(StepRc(e, v, 0))
                       else SqliteFailure(rr))
  {
    assert AfterSteps(e, v, 0) == v && AfterSteps(e, v, 1) == CStep(e, v).0;
  }

  /** Nothing is stepped and nothing reset when the arguments do not bind. */
  lemma BindErrorsStop<D, C, T>(
    e: Engine<D, C>, v: View<D, C>, params: seq<Param>, f: seq<Value> -> Result<T, Error>)
    requires BindAll(e, v, params).1.Some?
    ensures var (v1, err) := BindAll(e, v, params);
      && Execute(e, v, params) == (v1, Failure(err.value))
      && QueryRow(e, v, params, f) == (v1, Failure(err.value))
      && Exists(e, v, params) == (v1, Failure(err.value))
      && QueryOne(e, v, params, f) == (v1, Failure(err.value))
  {
  }

  /** And execution goes on from what they left when they do. */
  lemma BoundThenExecuted<D, C>(e: Engine<D, C>, v: View<D, C>, params: seq<Param>)
    requires BindAll(e, v, params).1.None?
    ensures Execute(e, v, params) == ExecuteBound(e, BindAll(e, v, params).0)
  {
  }

  // ---- Exactly one row ---------------------------------------------------------

  /** What a step that gave no row makes of a query: its own error, the reset's, or what its absence means. */
  function NoRow<D, C, T>(e: Engine<D, C>, v: View<D, C>, k: nat, absent: Result<T, Error>): Result<T, Error> {
    var rr := CReset(e, AfterSteps(e, v, k + 1)).1;
    if StepRc(e, v, k) != SQLITE_DONE then Failure(SqliteFailure(StepRc(e, v, k)))
    else if rr != SQLITE_OK then Failure(SqliteFailure(rr))
    else absent
  }

  /**
   * `query_one` steps once, and a second time exactly when the mapper took a first
   * row; no first row, a refused one and a second one each have their own error;
   * and whatever happened the statement is reset from where it was left.
   */
  lemma QueryOneReports<D, C, T>(
    e: Engine<D, C>, v: View<D, C>, params: seq<Param>, f: seq<Value> -> Result<T, Error>)
    requires BindAll(e, v, params).1.None?
    ensures var v1 := BindAll(e, v, params).0;
      var mapped := f(CStep(e, v1).2);
      var first := StepRc(e, v1, 0) == SQLITE_ROW;
      var steps := if first && mapped.Success? then 2 else 1;
      QueryOne(e, v, params, f)
      == (CReset(e, AfterSteps(e, v1, steps)).0,
          if !first then NoRow(e, v1, 0, Failure(QueryReturnedNoRows))
          else if mapped.Failure? then mapped
          else if StepRc(e, v1, 1) == SQLITE_ROW then Failure(QueryReturnedMoreThanOneRow)
          else NoRow(e, v1, 1, mapped))
  {
    var v1 := BindAll(e, v, params).0;
    assert AfterSteps(e, v1, 0) == v1 && AfterSteps(e, v1, 1) == CStep(e, v1).0;
    assert AfterSteps(e, v1, 2) == CStep(e, AfterSteps(e, v1, 1)).0;
    assert StepRc(e, v1, 1) == CStep(e, AfterSteps(e, v1, 1)).1;
  }
}
