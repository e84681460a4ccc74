// Prepared statements and their row cursors: binding, executing, iterating.
//
// Each operation is first a function on a `View` (the database and one handle),
// then a method of the class that performs it call by call.
module Statements {
  import opened Wrappers
  import opened Sqlite

  /** A raw statement moves by value: `ptr` is 0 once taken, `key` is its cache key. */
  datatype Raw = Raw(ptr: nat, key: Option<string>)

  datatype RowsState = RowsState(attached: bool, row: Option<seq<Value>>)

  datatype NextOut = Row(row: seq<Value>) | End | Failed(code: int)

  function Min(a: nat, b: nat): nat {
    if a < b then a else b
  }

  // ---- Binding ----------------------------------------------------------

  /** The argument converts and the library takes it. */
  predicate Binds<D, C>(e: Engine<D, C>, param: Param) {
    param.Give? && e.bindRc(param.value) == SQLITE_OK
  }

  /** One parameter: an argument that does not convert never reaches the library. */
  function BindOne<D, C(==)>(e: Engine<D, C>, v: View<D, C>, i: nat, param: Param): (View<D, C>, Option<Error>) {
    match param
    case Refuse(err) => (v, Some(err))
    case Give(x) =>
      var (v', rc) := CBind(e, v, i, x);
      (v', if rc == SQLITE_OK then None else Some(SqliteFailure(rc)))
  }

  /** The first of `params[k..n]` that is refused, or `n`. */
  function FirstBad<D, C>(e: Engine<D, C>, params: seq<Param>, k: nat, n: nat): (f: nat)
    requires k <= n <= |params|
    ensures k <= f <= n
    ensures forall i | k <= i < f :: Binds(e, params[i])
    ensures f < n ==> !Binds(e, params[f])
    decreases n - k
  {
    if k == n || !Binds(e, params[k]) then k else FirstBad(e, params, k + 1, n)
  }

  /** Positional binding, said without the loop. */
  function BindAll<D, C(==)>(e: Engine<D, C>, v: View<D, C>, params: seq<Param>)
    : (r: (View<D, C>, Option<Error>))
  {
    var expected := ParamCount(v);
    var n := Min(|params|, expected);
    var f := FirstBad(e, params, 0, n);
    if n > 0 && v.st.value.cursor != e.start then
      (v, Some(if params[0].Refuse? then params[0].error else SqliteFailure(SQLITE_MISUSE)))
    else if f == n then
      (Prefix(v, params, n),
       if |params| == expected then None
       else Some(InvalidParameterCount(Min(|params|, expected + 1), expected)))
    else if params[f].Refuse? then (Prefix(v, params, f), Some(params[f].error))
    else
      (WithBindings(v, Values(params[..f]) + [Null] + v.st.value.bindings[f + 1..]),
       Some(SqliteFailure(e.bindRc(params[f].value))))
  }

  function Values(params: seq<Param>): (values: seq<Value>)
    ensures |values| == |params|
    ensures forall i | 0 <= i < |params| && params[i].Give? :: values[i] == params[i].value
  {
    if params == [] then []
    else
      var last := params[|params| - 1];
      Values(params[..|params| - 1]) + [if last.Give? then last.value else Null]
  }

  /** The view once the first `k` parameters are bound. */
  function Prefix<D, C>(v: View<D, C>, params: seq<Param>, k: nat): View<D, C>
    requires k <= |params| && k <= ParamCount(v)
  {
    if k == 0 then v else WithBindings(v, Values(params[..k]) + v.st.value.bindings[k..])
  }

  lemma ValuesNext(params: seq<Param>, k: nat)
    requires k < |params| && params[k].Give?
    ensures Values(params[..k + 1]) == Values(params[..k]) + [params[k].value]
  {
    assert params[..k + 1][..k] == params[..k];
  }

  lemma ReplaceNext(done: seq<Value>, all: seq<Value>, x: Value)
    requires |done| < |all|
    ensures (done + all[|done|..])[|done| := x] == done + [x] + all[|done| + 1..]
  {
  }

  lemma BindNext<D, C>(e: Engine<D, C>, v: View<D, C>, params: seq<Param>, k: nat)
    requires k < |params| && k < ParamCount(v) && params[k].Give?
    ensures CBind(e, Prefix(v, params, k), k + 1, params[k].value)
         == if v.st.value.cursor != e.start then (Prefix(v, params, k), SQLITE_MISUSE)
            else if Binds(e, params[k]) then (Prefix(v, params, k + 1), SQLITE_OK)
            else (WithBindings(v, Values(params[..k]) + [Null] + v.st.value.bindings[k + 1..]), e.bindRc(params[k].value))
  {
    var all, x, done := v.st.value.bindings, params[k].value, Values(params[..k]);
    ValuesNext(params, k);
    ReplaceNext(done, all, x);
    ReplaceNext(done, all, Null);
    assert k == 0 ==> done == [] && all == done + all[k..];
    assert Prefix(v, params, k).st.value == v.st.value.(bindings := done + all[k..]);
  }

  /** One turn of the binding loop: on to the next parameter, or out with what `BindAll` says. */
  lemma BindTurn<D, C>(e: Engine<D, C>, v: View<D, C>, params: seq<Param>, k: nat)
    requires k < |params| && k < ParamCount(v)
    requires k > 0 ==> v.st.value.cursor == e.start
    requires k <= FirstBad(e, params, 0, Min(|params|, ParamCount(v)))
    ensures var (v', err) := BindOne(e, Prefix(v, params, k), k + 1, params[k]);
      if err.None? then
        && v' == Prefix(v, params, k + 1) && v.st.value.cursor == e.start
        && k + 1 <= FirstBad(e, params, 0, Min(|params|, ParamCount(v)))
      else BindAll(e, v, params) == (v', err)
  {
    if params[k].Give? {
      BindNext(e, v, params, k);
    }
    assert Prefix(v, params, 0) == v;
  }

  /** The same turn on a handle of the library. */
  lemma BindTurnAt<D, C>(e: Engine<D, C>, l: Lib<D, C>, p: nat, params: seq<Param>, k: nat)
    requires var v := At(l, p);
      && k < |params| && k < ParamCount(v)
      && (k > 0 ==> v.st.value.cursor == e.start)
      && k <= FirstBad(e, params, 0, Min(|params|, ParamCount(v)))
    ensures var v := At(l, p);
      var l1 := Put(l, p, Prefix(v, params, k));
      var (v', err) := BindOne(e, At(l1, p), k + 1, params[k]);
      if err.None? then
        && Put(l1, p, v') == Put(l, p, Prefix(v, params, k + 1)) && v.st.value.cursor == e.start
        && k + 1 <= FirstBad(e, params, 0, Min(|params|, ParamCount(v)))
      else Put(l1, p, v') == Put(l, p, BindAll(e, v, params).0) && err == BindAll(e, v, params).1
  {
    var before := Prefix(At(l, p), params, k);
    BindTurn(e, At(l, p), params, k);
    PutOver(l, p, before, BindOne(e, before, k + 1, params[k]).0);
  }

  function WithBindings<D, C>(v: View<D, C>, bindings: seq<Value>): View<D, C>
    requires v.st.Some?
  {
    v.(st := Some(v.st.value.(bindings := bindings)))
  }

  function ParameterIndex<D, C>(e: Engine<D, C>, v: View<D, C>, name: string): Option<nat> {
    if v.st.None? then None else e.paramIndex(v.st.value.text, name)
  }

  /** Named binding, in the order given, up to the first error. */
  function BindNamed<D, C(==)>(e: Engine<D, C>, v: View<D, C>, pairs: seq<(string, Param)>)
    : (View<D, C>, Option<Error>)
    decreases |pairs|
  {
    if pairs == [] then (v, None)
    else
      match ParameterIndex(e, v, pairs[0].0)
      case None => (v, Some(InvalidParameterName(pairs[0].0)))
      case Some(i) =>
        var (v', err) := BindOne(e, v, i, pairs[0].1);
        if err.Some? then (v', err) else BindNamed(e, v', pairs[1..])
  }

  /** The last value the pairs give to parameter `i`. */
  function LastGiven<D, C>(e: Engine<D, C>, v: View<D, C>, pairs: seq<(string, Param)>, i: nat): (r: Option<Param>)
    ensures r.Some? ==> exists pair :: pair in pairs && pair.1 == r.value
  {
    if pairs == [] then None
    else
      var last := pairs[|pairs| - 1];
      if ParameterIndex(e, v, last.0) == Some(i) then Some(last.1)
      else LastGiven(e, v, pairs[..|pairs| - 1], i)
  }

  lemma {:induction false} LastGivenHead<D, C>(e: Engine<D, C>, v: View<D, C>, pairs: seq<(string, Param)>, i: nat)
    requires pairs != []
    ensures LastGiven(e, v, pairs, i)
         == match LastGiven(e, v, pairs[1..], i)
            case Some(x) => Some(x)
            case None => if ParameterIndex(e, v, pairs[0].0) == Some(i) then Some(pairs[0].1) else None
  {
    var n := |pairs| - 1;
    if n > 0 {
      LastGivenHead(e, v, pairs[..n], i);
      assert pairs[..n][1..] == pairs[1..][..n - 1];
    }
  }

  /**
   * A successful named binding leaves every parameter at the last value given
   * for it; a parameter that was not named keeps whatever it held before.
   */
  lemma {:induction false} NamedBindingKeepsTheRest<D, C>(
    e: Engine<D, C>, v: View<D, C>, pairs: seq<(string, Param)>)
    requires v.st.Some?
    requires BindNamed(e, v, pairs).1.None?
    ensures var v' := BindNamed(e, v, pairs).0;
      && v'.st.Some? && v'.db == v.db
      && v'.st.value.text == v.st.value.text && v'.st.value.cursor == v.st.value.cursor
      && |v'.st.value.bindings| == |v.st.value.bindings|
      && (forall pair | pair in pairs :: Binds(e, pair.1))
      && forall i | 0 <= i < |v.st.value.bindings| ::
           v'.st.value.bindings[i]
           == match LastGiven(e, v, pairs, i + 1) case Some(Give(x)) => x case _ => v.st.value.bindings[i]
    decreases |pairs|
  {
    if pairs != [] {
      var p := ParameterIndex(e, v, pairs[0].0).value;
      var w := BindOne(e, v, p, pairs[0].1).0;
      NamedBindingKeepsTheRest(e, w, pairs[1..]);
      forall j | 1 <= j <= |v.st.value.bindings|
        ensures LastGiven(e, v, pairs, j)
             == match LastGiven(e, w, pairs[1..], j)
                case Some(x) => Some(x)
                case None => if p == j then Some(pairs[0].1) else None
      {
        LastGivenHead(e, v, pairs, j);
        SameIndices(e, v, w, pairs[1..], j);
      }
    }
  }

  lemma {:induction false} SameIndices<D, C>(
    e: Engine<D, C>, v: View<D, C>, w: View<D, C>, pairs: seq<(string, Param)>, i: nat)
    requires v.st.Some? && w.st.Some? && v.st.value.text == w.st.value.text
    ensures LastGiven(e, v, pairs, i) == LastGiven(e, w, pairs, i)
  {
    if pairs != [] {
      SameIndices(e, v, w, pairs[..|pairs| - 1], i);
    }
  }

  // ---- Executing --------------------------------------------------------

  function ExecuteBound<D, C>(e: Engine<D, C>, v: View<D, C>): (View<D, C>, Result<nat, Error>) {
    if v.st.Some? && e.readOnlyRows(v.st.value.text) then (v, Failure(ExecuteReturnedResults))
    else
      var (v1, rc, _) := CStep(e, v);
      var (v2, rr) := CReset(e, v1);
      (v2,
       if rc == SQLITE_ROW then Failure(ExecuteReturnedResults)
       else if rc != SQLITE_DONE then Failure(SqliteFailure(rc))
       else if rr != SQLITE_OK then Failure(SqliteFailure(rr))
       else Success(e.changes(v2.db)))
  }

  function Execute<D, C(==)>(e: Engine<D, C>, v: View<D, C>, params: seq<Param>): (View<D, C>, Result<nat, Error>) {
    var (v1, err) := BindAll(e, v, params);
    if err.Some? then (v1, Failure(err.value)) else ExecuteBound(e, v1)
  }

  // ---- Iterating --------------------------------------------------------

  function Advance<D, C>(e: Engine<D, C>, v: View<D, C>, r: RowsState): (View<D, C>, RowsState, NextOut) {
    if !r.attached then (v, RowsState(false, None), End)
    else
      var (v1, rc, row) := CStep(e, v);
      if rc == SQLITE_ROW then (v1, RowsState(true, Some(row)), Row(row))
      else
        var (v2, rr) := CReset(e, v1);
        (v2, RowsState(false, None),
         if rc != SQLITE_DONE then Failed(rc) else if rr != SQLITE_OK then Failed(rr) else End)
  }

  function DropRows<D, C>(e: Engine<D, C>, v: View<D, C>, r: RowsState): View<D, C> {
    if r.attached then CReset(e, v).0 else v
  }

  function Opened(): RowsState {
    RowsState(true, None)
  }

  /** The view and cursor after `n` calls of `next`, and what the calls returned. */
  function Nexts<D, C>(e: Engine<D, C>, v: View<D, C>, n: nat): (r: (View<D, C>, RowsState, seq<NextOut>))
    ensures |r.2| == n
  {
    if n == 0 then (v, Opened(), [])
    else
      var (v1, rs, outs) := Nexts(e, v, n - 1);
      var (v2, rs', out) := Advance(e, v1, rs);
      (v2, rs', outs + [out])
  }

  /** The view after `n` bare steps, ignoring their outcomes. */
  function AfterSteps<D, C>(e: Engine<D, C>, v: View<D, C>, n: nat): View<D, C> {
    if n == 0 then v else CStep(e, AfterSteps(e, v, n - 1)).0
  }

  function StepRc<D, C>(e: Engine<D, C>, v: View<D, C>, i: nat): int {
    CStep(e, AfterSteps(e, v, i)).1
  }

  /** `k` is the first bare step that gives no row. */
  ghost predicate StopsAt<D, C>(e: Engine<D, C>, v: View<D, C>, k: nat) {
    && (forall i: nat | i < k :: StepRc(e, v, i) == SQLITE_ROW)
    && StepRc(e, v, k) != SQLITE_ROW
  }

  /** What the step that ends the rows makes of its code and of the reset that follows. */
  function Ending<D, C>(e: Engine<D, C>, v: View<D, C>, k: nat): NextOut {
    var rc := StepRc(e, v, k);
    var rr := CReset(e, AfterSteps(e, v, k + 1)).1;
    if rc != SQLITE_DONE then Failed(rc) else if rr != SQLITE_OK then Failed(rr) else End
  }

  /**
   * `next` is fused: it returns exactly the rows of the steps before the first
   * one that gives none, then that step's ending, then `None` for ever, and the
   * handle is never stepped again after that step.
   */
  lemma {:induction false} NextIsFused<D, C>(e: Engine<D, C>, v: View<D, C>, k: nat, n: nat)
    requires StopsAt(e, v, k)
    ensures var (v', rs, outs) := Nexts(e, v, n);
      && (forall i | 0 <= i < n ::
            outs[i] == if i < k then Row(CStep(e, AfterSteps(e, v, i)).2) else if i == k then Ending(e, v, k) else End)
      && rs.attached == (n <= k)
      && v' == if n <= k then AfterSteps(e, v, n) else CReset(e, AfterSteps(e, v, k + 1)).0
  {
    if n > 0 {
      NextIsFused(e, v, k, n - 1);
      if n - 1 < k {
        assert StepRc(e, v, n - 1) == SQLITE_ROW;
      }
    }
  }

  /** Dropping the rows after any number of calls leaves the handle at its start, bindings kept. */
  lemma {:induction false} DroppedRowsRest<D, C>(e: Engine<D, C>, v: View<D, C>, n: nat)
    requires v.st.Some?
    ensures var (v', rs, _) := Nexts(e, v, n);
      && v'.st.Some?
      && (!rs.attached ==> v'.st.value.cursor == e.start)
      && DropRows(e, v', rs).st == Some(v.st.value.(cursor := e.start))
  {
    if n > 0 {
      DroppedRowsRest(e, v, n - 1);
    }
  }

  // ---- Whole queries ----------------------------------------------------

  function QueryRow<D, C(==), T>(
    e: Engine<D, C>, v: View<D, C>, params: seq<Param>, f: seq<Value> -> Result<T, Error>)
    : (View<D, C>, Result<T, Error>)
  {
    var (v1, err) := BindAll(e, v, params);
    if err.Some? then (v1, Failure(err.value))
    else
      var (v2, rs, out) := Advance(e, v1, Opened());
      (DropRows(e, v2, rs),
       match out
       case Row(row) => f(row)
       case End => Failure(QueryReturnedNoRows)
       case Failed(code) => Failure(SqliteFailure(code)))
  }

  function Exists<D, C(==)>(e: Engine<D, C>, v: View<D, C>, params: seq<Param>): (View<D, C>, Result<bool, Error>) {
    var (v1, err) := BindAll(e, v, params);
    if err.Some? then (v1, Failure(err.value))
    else
      var (v2, rs, out) := Advance(e, v1, Opened());
      (DropRows(e, v2, rs),
       match out
       case Row(_) => Success(true)
       case End => Success(false)
       case Failed(code) => Failure(SqliteFailure(code)))
  }

  function QueryOne<D, C(==), T>(
    e: Engine<D, C>, v: View<D, C>, params: seq<Param>, f: seq<Value> -> Result<T, Error>)
    : (View<D, C>, Result<T, Error>)
  {
    var (v1, err) := BindAll(e, v, params);
    if err.Some? then (v1, Failure(err.value))
    else
      var (v2, rs, out) := Advance(e, v1, Opened());
      match out
      case End => (DropRows(e, v2, rs), Failure(QueryReturnedNoRows))
      case Failed(code) => (DropRows(e, v2, rs), Failure(SqliteFailure(code)))
      case Row(row) =>
        var mapped := f(row);
        if mapped.Failure? then (DropRows(e, v2, rs), mapped)
        else
          var (v3, rs', out') := Advance(e, v2, rs);
          (DropRows(e, v3, rs'),
           match out'
           case End => mapped
           case Row(_) => Failure(QueryReturnedMoreThanOneRow)
           case Failed(code) => Failure(SqliteFailure(code)))
  }

  /**
   * query_one succeeds exactly when binding does, the script of bare steps is
   * one row then Done, the mapper accepts the row, and the reset reports nothing.
   */
  lemma QueryOneExactly<D, C, T>(
    e: Engine<D, C>, v: View<D, C>, params: seq<Param>, f: seq<Value> -> Result<T, Error>)
    ensures var (v1, err) := BindAll(e, v, params);
      QueryOne(e, v, params, f).1.Success?
      <==> && err.None?
           && StopsAt(e, v1, 1) && StepRc(e, v1, 1) == SQLITE_DONE
           && f(CStep(e, v1).2).Success?
           && CReset(e, AfterSteps(e, v1, 2)).1 == SQLITE_OK
  {
    var v1 := BindAll(e, v, params).0;
    assert AfterSteps(e, v1, 0) == v1 && AfterSteps(e, v1, 1) == CStep(e, v1).0;
    assert AfterSteps(e, v1, 2) == CStep(e, AfterSteps(e, v1, 1)).0;
    assert StepRc(e, v1, 0) == CStep(e, v1).1;
    assert StepRc(e, v1, 1) == CStep(e, AfterSteps(e, v1, 1)).1;
  }

  /** query_row and exists step once, whatever follows the first outcome. */
  lemma FirstOutcomeDecides<D, C, T>(
    e: Engine<D, C>, v: View<D, C>, params: seq<Param>, f: seq<Value> -> Result<T, Error>)
    requires BindAll(e, v, params).1.None?
    ensures var v1 := BindAll(e, v, params).0;
      var after := CReset(e, AfterSteps(e, v1, 1));
      && QueryRow(e, v, params, f).0 == Exists(e, v, params).0 == after.0
      && QueryRow(e, v, params, f).1
         == (if StepRc(e, v1, 0) == SQLITE_ROW then f(CStep(e, v1).2)
             else match Ending(e, v1, 0)
                  case Failed(code) => Failure(SqliteFailure(code))
                  case _ => Failure(QueryReturnedNoRows))
      && Exists(e, v, params).1
         == (if StepRc(e, v1, 0) == SQLITE_ROW then Success(true)
             else match Ending(e, v1, 0)
                  case Failed(code) => Failure(SqliteFailure(code))
                  case _ => Success(false))
  {
    var v1 := BindAll(e, v, params).0;
    assert AfterSteps(e, v1, 0) == v1 && AfterSteps(e, v1, 1) == CStep(e, v1).0;
  }

  // ---- The classes ------------------------------------------------------

  /** A statement owned by a caller. */
  class Statement<D(==), C(==)> {
    const lib: Library<D, C>
    var raw: Raw

    constructor (lib: Library<D, C>, raw: Raw)
      ensures this.lib == lib && this.raw == raw
    {
      this.lib := lib;
      this.raw := raw;
    }

    ghost function Here(): View<D, C>
      reads this, lib
    {
      At(lib.s, raw.ptr)
    }

    method BindParameter(param: Param, index: nat) returns (err: Option<Error>)
      modifies lib
      ensures lib.s == Put(old(lib.s), raw.ptr, BindOne(lib.e, old(Here()), index, param).0)
      ensures err == BindOne(lib.e, old(Here()), index, param).1
    {
      PutOver(lib.s, raw.ptr, Here(), Here());
      match param
      case Refuse(error) => return Some(error);
      case Give(x) =>
        var rc := lib.Bind(raw.ptr, index, x);
        err := if rc == SQLITE_OK then None else Some(SqliteFailure(rc));
    }

    method BindParameters(params: seq<Param>) returns (err: Option<Error>)
      modifies lib
      ensures lib.s == Put(old(lib.s), raw.ptr, BindAll(lib.e, old(Here()), params).0)
      ensures err == BindAll(lib.e, old(Here()), params).1
    {
      ghost var v, n := Here(), Min(|params|, ParamCount(Here()));
      var expected := ParamCount(At(lib.s, raw.ptr));
      var index := 0;
      PutOver(lib.s, raw.ptr, v, v);
      while index < |params|
        invariant index <= n <= expected
        invariant index > 0 ==> v.st.value.cursor == lib.e.start
        invariant index <= FirstBad(lib.e, params, 0, n)
        invariant lib.s == Put(old(lib.s), raw.ptr, Prefix(v, params, index))
      {
        index := index + 1;
        if index > expected {
          break;
        }
        BindTurnAt(lib.e, old(lib.s), raw.ptr, params, index - 1);
        err := BindParameter(params[index - 1], index);
        if err.Some? {
          return;
        }
      }
      err := if index != expected then Some(InvalidParameterCount(index, expected)) else None;
    }

    method BindParametersNamed(pairs: seq<(string, Param)>) returns (err: Option<Error>)
      modifies lib
      ensures lib.s == Put(old(lib.s), raw.ptr, BindNamed(lib.e, old(Here()), pairs).0)
      ensures err == BindNamed(lib.e, old(Here()), pairs).1
    {
      PutOver(lib.s, raw.ptr, Here(), Here());
      for i := 0 to |pairs|
        invariant lib.s == Put(old(lib.s), raw.ptr, Here())
        invariant Here().st.Some? <==> raw.ptr in old(lib.s).open
        invariant BindNamed(lib.e, old(Here()), pairs) == BindNamed(lib.e, Here(), pairs[i..])
      {
        ghost var before := Here();
        assert pairs[i..][0] == pairs[i] && pairs[i..][1..] == pairs[i + 1..];
        var index := ParameterIndex(lib.e, At(lib.s, raw.ptr), pairs[i].0);
        if index.None? {
          return Some(InvalidParameterName(pairs[i].0));
        }
        err := BindParameter(pairs[i].1, index.value);
        PutOver(old(lib.s), raw.ptr, before, BindOne(lib.e, before, index.value, pairs[i].1).0);
        if err.Some? {
          return;
        }
      }
      err := None;
    }

    method ExecuteWithBoundParameters() returns (r: Result<nat, Error>)
      modifies lib
      ensures lib.s == Put(old(lib.s), raw.ptr, ExecuteBound(lib.e, old(Here())).0)
      ensures r == ExecuteBound(lib.e, old(Here())).1
    {
      ghost var v := Here();
      PutOver(lib.s, raw.ptr, v, v);
      var here := At(lib.s, raw.ptr);
      if here.st.Some? && lib.e.readOnlyRows(here.st.value.text) {
        return Failure(ExecuteReturnedResults);
      }
      var rc, _ := lib.Step(raw.ptr);
      var rr := lib.Reset(raw.ptr);
      PutOver(old(lib.s), raw.ptr, CStep(lib.e, v).0, CReset(lib.e, CStep(lib.e, v).0).0);
      if rc == SQLITE_DONE {
        r := if rr == SQLITE_OK then Success(lib.e.changes(lib.s.db)) else Failure(SqliteFailure(rr));
      } else {
        r := if rc == SQLITE_ROW then Failure(ExecuteReturnedResults) else Failure(SqliteFailure(rc));
      }
    }

    method ExecuteWith(params: seq<Param>) returns (r: Result<nat, Error>)
      modifies lib
      ensures lib.s == Put(old(lib.s), raw.ptr, Execute(lib.e, old(Here()), params).0)
      ensures r == Execute(lib.e, old(Here()), params).1
    {
      ghost var v := Here();
      var err := BindParameters(params);
      PutOver(old(lib.s), raw.ptr, BindAll(lib.e, v, params).0, Execute(lib.e, v, params).0);
      if err.Some? {
        return Failure(err.value);
      }
      r := ExecuteWithBoundParameters();
    }

    /** The rowid is reported only when exactly one row changed. */
    method Insert(params: seq<Param>) returns (r: Result<int, Error>)
      modifies lib
      ensures lib.s == Put(old(lib.s), raw.ptr, Execute(lib.e, old(Here()), params).0)
      ensures match Execute(lib.e, old(Here()), params).1
              case Failure(err) => r == Failure(err)
              case Success(n) => r == if n == 1 then Success(lib.e.rowid(lib.s.db)) else Failure(StatementChangedRows(n))
    {
      var changed := ExecuteWith(params);
      match changed
      case Failure(err) => return Failure(err);
      case Success(n) =>
        r := if n == 1 then Success(lib.e.rowid(lib.s.db)) else Failure(StatementChangedRows(n));
    }

    /** The raw handle leaves the statement, so that a later drop finalizes nothing. */
    method IntoRaw() returns (taken: Raw)
      modifies this
      ensures taken == old(raw) && raw == Raw(0, None)
    {
      taken, raw := raw, Raw(0, None);
    }

    method Finalize()
      requires raw.ptr == 0 || raw.ptr in lib.s.open
      modifies this, lib
      ensures lib.s == CFinalize(old(lib.s), old(raw.ptr)) && raw == Raw(0, None)
    {
      var taken := IntoRaw();
      lib.Finalize(taken.ptr);
    }

    method QueryRowWith<T>(params: seq<Param>, f: seq<Value> -> Result<T, Error>) returns (r: Result<T, Error>)
      modifies lib
      ensures lib.s == Put(old(lib.s), raw.ptr, QueryRow(lib.e, old(Here()), params, f).0)
      ensures r == QueryRow(lib.e, old(Here()), params, f).1
    {
      ghost var v := Here();
      ghost var v1 := BindAll(lib.e, v, params).0;
      var err := BindParameters(params);
      PutOver(old(lib.s), raw.ptr, v1, v1);
      if err.Some? {
        return Failure(err.value);
      }
      var rows := new Rows(this);
      var out := rows.Next();
      ghost var v2 := Advance(lib.e, v1, Opened()).0;
      PutOver(old(lib.s), raw.ptr, v1, v2);
      match out {
        case Row(row) => r := f(row);
        case End => r := Failure(QueryReturnedNoRows);
        case Failed(code) => r := Failure(SqliteFailure(code));
      }
      rows.Drop();
      PutOver(old(lib.s), raw.ptr, v2, QueryRow(lib.e, v, params, f).0);
    }

    method ExistsWith(params: seq<Param>) returns (r: Result<bool, Error>)
      modifies lib
      ensures lib.s == Put(old(lib.s), raw.ptr, Exists(lib.e, old(Here()), params).0)
      ensures r == Exists(lib.e, old(Here()), params).1
    {
      ghost var v := Here();
      ghost var v1 := BindAll(lib.e, v, params).0;
      var err := BindParameters(params);
      PutOver(old(lib.s), raw.ptr, v1, v1);
      if err.Some? {
        return Failure(err.value);
      }
      var rows := new Rows(this);
      var out := rows.Next();
      ghost var v2 := Advance(lib.e, v1, Opened()).0;
      PutOver(old(lib.s), raw.ptr, v1, v2);
      r := match out
           case Row(_) => Success(true)
           case End => Success(false)
           case Failed(code) => Failure(SqliteFailure(code));
      rows.Drop();
      PutOver(old(lib.s), raw.ptr, v2, Exists(lib.e, v, params).0);
    }

    method QueryOneWith<T>(params: seq<Param>, f: seq<Value> -> Result<T, Error>) returns (r: Result<T, Error>)
      modifies lib
      ensures lib.s == Put(old(lib.s), raw.ptr, QueryOne(lib.e, old(Here()), params, f).0)
      ensures r == QueryOne(lib.e, old(Here()), params, f).1
    {
      ghost var v := Here();
      ghost var v1 := BindAll(lib.e, v, params).0;
      var err := BindParameters(params);
      PutOver(old(lib.s), raw.ptr, v1, v1);
      if err.Some? {
        return Failure(err.value);
      }
      var rows := new Rows(this);
      var out := rows.Next();
      ghost var vn := Advance(lib.e, v1, Opened()).0;
      ghost var rs := Advance(lib.e, v1, Opened()).1;
      PutOver(old(lib.s), raw.ptr, v1, vn);
      match out {
        case End => r := Failure(QueryReturnedNoRows);
        case Failed(code) => r := Failure(SqliteFailure(code));
        case Row(row) =>
          r := f(row);
          if r.Success? {
            var second := rows.Next();
            ghost var v3 := Advance(lib.e, vn, rs).0;
            PutOver(old(lib.s), raw.ptr, vn, v3);
            vn := v3;
            match second {
              case End =>
              case Row(_) => r := Failure(QueryReturnedMoreThanOneRow);
              case Failed(code) => r := Failure(SqliteFailure(code));
            }
          }
      }
      rows.Drop();
      PutOver(old(lib.s), raw.ptr, vn, QueryOne(lib.e, v, params, f).0);
    }
  }

  /** A cursor over a statement's rows; `stmt` is null once the rows are over. */
  class Rows<D(==), C(==)> {
    var stmt: Statement?<D, C>
    var row: Option<seq<Value>>

    constructor (stmt: Statement<D, C>)
      ensures this.stmt == stmt && row == None
    {
      this.stmt := stmt;
      row := None;
    }

    ghost function State(): RowsState
      reads this
    {
      RowsState(stmt != null, row)
    }

    method Reset() returns (rc: int)
      modifies this, if stmt == null then {} else {stmt.lib}
      ensures stmt == null && row == old(row)
      ensures old(stmt) == null ==> rc == SQLITE_OK
      ensures var s := old(stmt);
        s != null ==>
          && s.lib.s == Put(old(s.lib.s), s.raw.ptr, CReset(s.lib.e, old(s.Here())).0)
          && rc == CReset(s.lib.e, old(s.Here())).1
    {
      rc := SQLITE_OK;
      if stmt != null {
        var s := stmt;
        stmt := null;
        rc := s.lib.Reset(s.raw.ptr);
      }
    }

    method Next() returns (out: NextOut)
      modifies this, if stmt == null then {} else {stmt.lib}
      ensures stmt == null || stmt == old(stmt)
      ensures old(stmt) == null ==> State() == RowsState(false, None) && out == End
      ensures var s := old(stmt);
        s != null ==>
          var (v, rs, o) := Advance(s.lib.e, old(s.Here()), old(State()));
          s.lib.s == Put(old(s.lib.s), s.raw.ptr, v) && State() == rs && out == o
    {
      if stmt == null {
        row := None;
        return End;
      }
      var s := stmt;
      ghost var v := s.Here();
      var rc, current := s.lib.Step(s.raw.ptr);
      ghost var v1 := CStep(s.lib.e, v).0;
      PutOver(old(s.lib.s), s.raw.ptr, v1, CReset(s.lib.e, v1).0);
      if rc == SQLITE_ROW {
        row := Some(current);
        return Row(current);
      }
      var rr := Reset();
      row := None;
      out := if rc != SQLITE_DONE then Failed(rc) else if rr != SQLITE_OK then Failed(rr) else End;
    }

    method Drop()
      modifies this, if stmt == null then {} else {stmt.lib}
      ensures stmt == null
      ensures var s := old(stmt);
        s != null ==> s.lib.s == Put(old(s.lib.s), s.raw.ptr, CReset(s.lib.e, old(s.Here())).0)
    {
      var _ := Reset();
    }
  }
}
