// Runs of a connection whose statements come from the cache, next to the same
// runs with every statement compiled afresh.
module CachedRuns {
  import opened Wrappers
  import opened Sqlite
  import opened Statements
  import opened StatementCaches

  /** What a caller does with a statement it holds; any rows still open are dropped first, except by `Next`. */
  datatype Use =
    | ExecuteWith(params: seq<Param>)
    | ExecuteNamed(pairs: seq<(string, Param)>)
    | QueryWith(params: seq<Param>)
    | QueryNamed(pairs: seq<(string, Param)>)
    | Next
    | CloseRows
    | ClearBindings

  datatype Op<+D> =
    | Prepare(x: nat, sql: string)        // let x = conn.prepare(sql)
    | PrepareCached(x: nat, sql: string)  // let x = conn.prepare_cached(sql)
    | On(x: nat, use: Use)
    | Discard(x: nat)
    | Drop(x: nat)
    | FlushCache
    | Resize(capacity: nat)
    | Elsewhere(db: D)                    // any other change of the database, its schema included

  datatype Seen =
    | Absent
    | Prepared(empty: bool)
    | Refused(error: Error)
    | Changed(rows: nat)
    | Yielded(out: NextOut)
    | Done

  function UseStmt<D, C(==)>(e: Engine<D, C>, v: View<D, C>, rows: RowsState, u: Use): (View<D, C>, RowsState, Seen) {
    var v0 := DropRows(e, v, rows);
    var closed := RowsState(false, None);
    match u
    case ExecuteWith(params) =>
      var (v1, r) := Execute(e, v0, params);
      (v1, closed, match r case Failure(err) => Refused(err) case Success(n) => Changed(n))
    case ExecuteNamed(pairs) =>
      var (v1, err) := BindNamed(e, v0, pairs);
      if err.Some? then (v1, closed, Refused(err.value))
      else
        var (v2, r) := ExecuteBound(e, v1);
        (v2, closed, match r case Failure(err) => Refused(err) case Success(n) => Changed(n))
    case QueryWith(params) =>
      var (v1, err) := BindAll(e, v0, params);
      if err.Some? then (v1, closed, Refused(err.value)) else (v1, Opened(), Done)
    case QueryNamed(pairs) =>
      var (v1, err) := BindNamed(e, v0, pairs);
      if err.Some? then (v1, closed, Refused(err.value)) else (v1, Opened(), Done)
    case Next =>
      var (v1, rows', out) := Advance(e, v, rows);
      (v1, rows', Yielded(out))
    case CloseRows => (v0, closed, Done)
    case ClearBindings => (CClear(v0), closed, Done)
  }

  /** `n` calls of `next` on rows a caller holds. */
  function RepeatNext<D, C(==)>(e: Engine<D, C>, v: View<D, C>, rows: RowsState, n: nat)
    : (View<D, C>, RowsState, seq<Seen>)
  {
    if n == 0 then (v, rows, [])
    else
      var (v1, rows1, seen) := RepeatNext(e, v, rows, n - 1);
      var (v2, rows2, last) := UseStmt(e, v1, rows1, Next);
      (v2, rows2, seen + [last])
  }

  lemma {:induction false} RepeatNextIsNexts<D, C>(e: Engine<D, C>, v: View<D, C>, n: nat)
    ensures var (v', rows', outs) := Nexts(e, v, n);
      var (v2, rows2, seen) := RepeatNext(e, v, Opened(), n);
      v2 == v' && rows2 == rows' && |seen| == n && forall i | 0 <= i < n :: seen[i] == Yielded(outs[i])
  {
    if n > 0 {
      RepeatNextIsNexts(e, v, n - 1);
    }
  }

  /**
   * A query a caller opens drops its earlier rows, binds, and then yields what
   * iterating from there yields; one whose arguments do not bind opens nothing.
   */
  lemma QueriesYield<D, C>(e: Engine<D, C>, v: View<D, C>, rows: RowsState, u: Use, n: nat)
    requires u.QueryWith? || u.QueryNamed?
    ensures var v0 := DropRows(e, v, rows);
      var (v1, err) := if u.QueryWith? then BindAll(e, v0, u.params) else BindNamed(e, v0, u.pairs);
      var (v2, rows2, seen) := UseStmt(e, v, rows, u);
      && seen == (if err.None? then Done else Refused(err.value))
      && (err.None? ==>
            var (v3, rows3, outs) := Nexts(e, v1, n);
            var (v4, rows4, yielded) := RepeatNext(e, v2, rows2, n);
            v4 == v3 && rows4 == rows3 && |yielded| == n && forall i | 0 <= i < n :: yielded[i] == Yielded(outs[i]))
      && (err.Some? ==>
            var (v4, rows4, yielded) := RepeatNext(e, v2, rows2, n);
            v4 == v2 == v1 && !rows4.attached && |yielded| == n && forall i | 0 <= i < n :: yielded[i] == Yielded(End))
  {
    var v0 := DropRows(e, v, rows);
    var (v1, err) := if u.QueryWith? then BindAll(e, v0, u.params) else BindNamed(e, v0, u.pairs);
    if err.None? {
      RepeatNextIsNexts(e, v1, n);
    } else {
      ClosedYieldsNothing(e, v1, n);
    }
  }

  lemma {:induction false} ClosedYieldsNothing<D, C>(e: Engine<D, C>, v: View<D, C>, n: nat)
    ensures var (v', rows, seen) := RepeatNext(e, v, RowsState(false, None), n);
      v' == v && rows == RowsState(false, None) && |seen| == n && forall i | 0 <= i < n :: seen[i] == Yielded(End)
  {
    if n > 0 {
      ClosedYieldsNothing(e, v, n - 1);
    }
  }

  /** The other uses drop the rows and then do just the one thing, and leave no rows open. */
  lemma UsesCloseRows<D, C>(e: Engine<D, C>, v: View<D, C>, rows: RowsState, u: Use)
    requires !u.QueryWith? && !u.QueryNamed? && !u.Next?
    ensures var v0 := DropRows(e, v, rows);
      var (v1, rows1, seen) := UseStmt(e, v, rows, u);
      && rows1 == RowsState(false, None)
      && match u
         case ExecuteWith(params) =>
           var (v2, r) := Execute(e, v0, params);
           v1 == v2 && seen == (if r.Success? then Changed(r.value) else Refused(r.error))
         case ExecuteNamed(pairs) =>
           var (v2, err) := BindNamed(e, v0, pairs);
           var (v3, r) := ExecuteBound(e, v2);
           if err.Some? then v1 == v2 && seen == Refused(err.value)
           else v1 == v3 && seen == (if r.Success? then Changed(r.value) else Refused(r.error))
         case ClearBindings =>
           && seen == Done && v1.db == v0.db
           && (v0.st.Some? ==> v1.st == Some(v0.st.value.(bindings := Nulls(|v0.st.value.bindings|))))
         case _ => v1 == v0 && seen == Done
  {
  }

  // ---- The connection as it is ------------------------------------------

  datatype Held = Held(raw: Raw, rows: RowsState)

  datatype World<+D, +C> = World(c: Cache<D, C>, live: map<nat, Held>)

  function Closed(): RowsState {
    RowsState(false, None)
  }

  function Keep<D, C>(w: World<D, C>, c: Cache<D, C>, x: nat, r: Result<Raw, Error>): (World<D, C>, Seen) {
    match r
    case Failure(err) => (World(c, w.live), Refused(err))
    case Success(raw) => (World(c, w.live[x := Held(raw, Closed())]), Prepared(raw.ptr == 0))
  }

  /** The world with the rows of `x` dropped, and `x` no longer held. */
  function LetGo<D, C>(e: Engine<D, C>, w: World<D, C>, x: nat): World<D, C>
    requires x in w.live
  {
    var h := w.live[x];
    var l := Put(w.c.lib, h.raw.ptr, DropRows(e, At(w.c.lib, h.raw.ptr), h.rows));
    World(w.c.(lib := l), w.live - {x})
  }

  /** Dropping: a cached statement goes back to the cache, a plain one is finalized. */
  function GiveUp<D, C>(c: Cache<D, C>, raw: Raw): Cache<D, C> {
    if raw.key.Some? then CacheStmt(c, raw) else c.(lib := CFinalize(c.lib, raw.ptr))
  }

  function Step<D, C(==)>(e: Engine<D, C>, w: World<D, C>, op: Op<D>): (World<D, C>, Seen) {
    match op
    case PrepareCached(x, sql) =>
      if x in w.live then (w, Absent)
      else
        var (c, r) := Get(e, w.c, sql);
        Keep(w, c, x, r)
    case Prepare(x, sql) =>
      if x in w.live then (w, Absent)
      else
        var (l, r) := CPrepare(e, w.c.lib, sql);
        Keep(w, w.c.(lib := l), x, match r case Failure(err) => Failure(err) case Success(p) => Success(Raw(p, None)))
    case On(x, u) =>
      if x !in w.live then (w, Absent)
      else
        var h := w.live[x];
        var (v, rows, seen) := UseStmt(e, At(w.c.lib, h.raw.ptr), h.rows, u);
        (World(w.c.(lib := Put(w.c.lib, h.raw.ptr, v)), w.live[x := h.(rows := rows)]), seen)
    case Discard(x) =>
      if x !in w.live then (w, Absent)
      else
        var w1 := LetGo(e, w, x);
        (w1.(c := w1.c.(lib := CFinalize(w1.c.lib, w.live[x].raw.ptr))), Done)
    case Drop(x) =>
      if x !in w.live then (w, Absent)
      else
        var w1 := LetGo(e, w, x);
        (w1.(c := GiveUp(w1.c, w.live[x].raw)), Done)
    case FlushCache => (w.(c := Flush(w.c)), Done)
    case Resize(n) => (w.(c := SetCapacity(w.c, n)), Done)
    case Elsewhere(db) => (w.(c := w.c.(lib := w.c.lib.(db := db))), Done)
  }

  function Start<D, C>(db: D, capacity: nat): World<D, C> {
    World(Cache(Lib(db, map[], 0, [], false), [], capacity), map[])
  }

  function Run<D, C(==)>(e: Engine<D, C>, w: World<D, C>, ops: seq<Op<D>>): (World<D, C>, seq<Seen>)
    decreases |ops|
  {
    if ops == [] then (w, [])
    else
      var (w1, seen) := Step(e, w, ops[0]);
      var (w2, rest) := Run(e, w1, ops[1..]);
      (w2, [seen] + rest)
  }

  // ---- The reference: statements are values, compiled on demand ----------

  datatype Owned<+C> = Owned(st: Option<Stmt<C>>, rows: RowsState)

  datatype Plain<+D, +C> = Plain(db: D, live: map<nat, Owned<C>>)

  function Compile<D, C>(e: Engine<D, C>, f: Plain<D, C>, x: nat, text: string): (Plain<D, C>, Seen) {
    if x in f.live then (f, Absent)
    else
      match e.compile(f.db, text)
      case Rejected(error, _) => (f, Refused(error))
      case NoStatement => (f.(live := f.live[x := Owned(None, Closed())]), Prepared(true))
      case Program =>
        var s := Stmt(text, Nulls(e.paramCount(text)), e.start);
        (f.(live := f.live[x := Owned(Some(s), Closed())]), Prepared(false))
  }

  function PlainStep<D, C(==)>(e: Engine<D, C>, f: Plain<D, C>, op: Op<D>): (Plain<D, C>, Seen) {
    match op
    case PrepareCached(x, sql) => Compile(e, f, x, Trim(sql))
    case Prepare(x, sql) => Compile(e, f, x, sql)
    case On(x, u) =>
      if x !in f.live then (f, Absent)
      else
        var (v, rows, seen) := UseStmt(e, View(f.db, f.live[x].st), f.live[x].rows, u);
        (Plain(v.db, f.live[x := Owned(v.st, rows)]), seen)
    case Discard(x) => Forget(e, f, x)
    case Drop(x) => Forget(e, f, x)
    case FlushCache => (f, Done)
    case Resize(_) => (f, Done)
    case Elsewhere(db) => (f.(db := db), Done)
  }

  function Forget<D, C>(e: Engine<D, C>, f: Plain<D, C>, x: nat): (Plain<D, C>, Seen) {
    if x !in f.live then (f, Absent)
    else (Plain(DropRows(e, View(f.db, f.live[x].st), f.live[x].rows).db, f.live - {x}), Done)
  }

  function PlainRun<D, C(==)>(e: Engine<D, C>, f: Plain<D, C>, ops: seq<Op<D>>): seq<Seen>
    decreases |ops|
  {
    if ops == [] then []
    else
      var (f1, seen) := PlainStep(e, f, ops[0]);
      [seen] + PlainRun(e, f1, ops[1..])
  }

  // ---- What every reachable world keeps ----------------------------------

  /** The non-null handles held by callers. */
  function Out(live: map<nat, Held>): set<nat> {
    set x | x in live && live[x].raw.ptr != 0 :: live[x].raw.ptr
  }

  ghost predicate HeldOk<D, C>(e: Engine<D, C>, l: Lib<D, C>, h: Held) {
    h.raw.ptr != 0 ==>
      && h.raw.ptr in l.open
      && (!h.rows.attached ==> l.open[h.raw.ptr].cursor == e.start)
      && (h.raw.key.Some? ==>
            && l.open[h.raw.ptr].text == h.raw.key.value
            && |l.open[h.raw.ptr].bindings| == e.paramCount(h.raw.key.value))
  }

  ghost predicate Inv<D, C>(e: Engine<D, C>, w: World<D, C>) {
    && CacheInv(e, w.c, Out(w.live))
    && AllHeldOk(e, w.c.lib, w.live)
    && HeldApart(w.live)
  }

  ghost predicate AllHeldOk<D, C>(e: Engine<D, C>, l: Lib<D, C>, live: map<nat, Held>) {
    forall x | x in live :: HeldOk(e, l, live[x])
  }

  /** No two callers hold one handle. */
  ghost predicate HeldApart(live: map<nat, Held>) {
    forall x, y | x in live && y in live && x != y && live[x].raw.ptr != 0 :: live[x].raw.ptr != live[y].raw.ptr
  }

  /** Binding may only change bindings. */
  ghost predicate SameShape<D, C>(v: View<D, C>, v': View<D, C>) {
    && (v.st.Some? <==> v'.st.Some?)
    && (v.st.Some? ==>
          && v'.st.value.text == v.st.value.text && v'.st.value.cursor == v.st.value.cursor
          && |v'.st.value.bindings| == |v.st.value.bindings|)
  }

  lemma PositionalKeepsShape<D, C>(e: Engine<D, C>, v: View<D, C>, params: seq<Param>)
    ensures SameShape(v, BindAll(e, v, params).0)
  {
  }

  lemma UseRests<D, C>(e: Engine<D, C>, v: View<D, C>, rows: RowsState, u: Use)
    requires v.st.Some? ==> rows.attached || v.st.value.cursor == e.start
    ensures var (v', rows', _) := UseStmt(e, v, rows, u);
      && (v.st.Some? <==> v'.st.Some?)
      && (v.st.Some? ==>
            && v'.st.value.text == v.st.value.text
            && |v'.st.value.bindings| == |v.st.value.bindings|
            && (rows'.attached || v'.st.value.cursor == e.start))
  {
    var v0 := DropRows(e, v, rows);
    match u
    case ExecuteWith(params) => PositionalKeepsShape(e, v0, params);
    case QueryWith(params) => PositionalKeepsShape(e, v0, params);
    case ExecuteNamed(pairs) => NamedKeepsShape(e, v0, pairs);
    case QueryNamed(pairs) => NamedKeepsShape(e, v0, pairs);
    case _ =>
  }

  lemma {:induction false} NamedKeepsShape<D, C>(e: Engine<D, C>, v: View<D, C>, pairs: seq<(string, Param)>)
    ensures SameShape(v, BindNamed(e, v, pairs).0)
    decreases |pairs|
  {
    if pairs != [] && ParameterIndex(e, v, pairs[0].0).Some? {
      NamedKeepsShape(e, BindOne(e, v, ParameterIndex(e, v, pairs[0].0).value, pairs[0].1).0, pairs[1..]);
    }
  }

  lemma OutWith(live: map<nat, Held>, x: nat, h: Held)
    requires x in live ==> live[x].raw == h.raw
    ensures Out(live[x := h]) == Out(live) + (if h.raw.ptr == 0 then {} else {h.raw.ptr})
  {
    var live' := live[x := h];
    forall p | p in Out(live)
      ensures p in Out(live')
    {
      var y :| y in live && live[y].raw.ptr != 0 && live[y].raw.ptr == p;
      assert live'[y].raw == live[y].raw;
    }
    if h.raw.ptr != 0 {
      assert live'[x].raw.ptr in Out(live');
    }
  }

  lemma OutWithout(live: map<nat, Held>, x: nat)
    requires x in live
    requires forall y | y in live && y != x && live[x].raw.ptr != 0 :: live[y].raw.ptr != live[x].raw.ptr
    ensures Out(live - {x}) == Out(live) - {live[x].raw.ptr}
  {
    forall p | p in Out(live) && p != live[x].raw.ptr
      ensures p in Out(live - {x})
    {
      var y :| y in live && live[y].raw.ptr != 0 && live[y].raw.ptr == p;
      assert (live - {x})[y] == live[y];
    }
  }

  lemma HoldApart(live: map<nat, Held>, x: nat, h: Held)
    requires HeldApart(live) && x !in live && h.raw.ptr !in Out(live)
    ensures HeldApart(live[x := h])
  {
    assert forall y | y in live && live[y].raw.ptr != 0 :: live[y].raw.ptr in Out(live);
  }

  lemma KeepKeeps<D, C>(e: Engine<D, C>, w: World<D, C>, c: Cache<D, C>, x: nat, r: Result<Raw, Error>)
    requires Inv(e, w) && x !in w.live
    requires Untouched(w.c, c, Out(w.live))
    requires r.Failure? || r.value.ptr == 0 ==> CacheInv(e, c, Out(w.live))
    requires r.Success? && r.value.ptr != 0 ==>
      && CacheInv(e, c, Out(w.live) + {r.value.ptr}) && r.value.ptr !in Out(w.live)
      && c.lib.open[r.value.ptr].cursor == e.start
      && (r.value.key.Some? ==> Fresh(e, c.lib.open[r.value.ptr], r.value.key.value))
    ensures Inv(e, Keep(w, c, x, r).0)
  {
    assert forall y | y in w.live && w.live[y].raw.ptr != 0 :: w.live[y].raw.ptr in Out(w.live);
    if r.Failure? {
      SameHeld(e, w, c);
    } else {
      var h := Held(r.value, Closed());
      var live := w.live[x := h];
      OutWith(w.live, x, h);
      assert Out(w.live) + {} == Out(w.live);
      HoldApart(w.live, x, h);
      assert AllHeldOk(e, c.lib, live) by {
        forall y | y in live
          ensures HeldOk(e, c.lib, live[y])
        {
          assert y != x ==> live[y] == w.live[y] && HeldOk(e, w.c.lib, w.live[y]);
        }
      }
    }
  }

  /** Letting go drops open rows first, so what is returned or finalized is at rest. */
  lemma LetGoKeeps<D, C>(e: Engine<D, C>, w: World<D, C>, x: nat)
    requires Inv(e, w) && x in w.live
    ensures var w1 := LetGo(e, w, x); var raw := w.live[x].raw;
      && CacheInv(e, w1.c, Out(w.live))
      && Out(w1.live) == Out(w.live) - {raw.ptr}
      && (raw.ptr != 0 ==> raw.ptr in Out(w.live) && (raw.key.Some? ==> Returnable(e, w1.c.lib, raw)))
      && (forall p | p in w.c.lib.open && p != raw.ptr :: p in w1.c.lib.open && w1.c.lib.open[p] == w.c.lib.open[p])
  {
    var h := w.live[x];
    if h.raw.ptr != 0 {
      assert h.raw.ptr in Out(w.live);
    }
    assert 0 !in w.c.lib.open;
    PutKeeps(e, w.c, Out(w.live), h.raw.ptr, DropRows(e, At(w.c.lib, h.raw.ptr), h.rows));
    OutWithout(w.live, x);
  }

  /** Every held statement other than the one let go is still good once the cache is done. */
  lemma GoneKeeps<D, C>(e: Engine<D, C>, w: World<D, C>, x: nat, c: Cache<D, C>)
    requires Inv(e, w) && x in w.live
    requires CacheInv(e, c, Out(w.live) - {w.live[x].raw.ptr})
    requires Untouched(LetGo(e, w, x).c, c, Out(w.live) - {w.live[x].raw.ptr})
    ensures Inv(e, World(c, w.live - {x}))
  {
    LetGoKeeps(e, w, x);
    forall y | y in w.live - {x}
      ensures HeldOk(e, c.lib, w.live[y])
    {
      if w.live[y].raw.ptr != 0 {
        assert w.live[y].raw.ptr in Out(w.live);
      }
    }
  }

  lemma PutHeldKeeps<D, C>(e: Engine<D, C>, w: World<D, C>, x: nat, v: View<D, C>, rows: RowsState)
    requires Inv(e, w) && x in w.live
    requires var was := At(w.c.lib, w.live[x].raw.ptr).st;
      && (was.Some? <==> v.st.Some?)
      && (was.Some? ==>
            && v.st.value.text == was.value.text && |v.st.value.bindings| == |was.value.bindings|
            && (rows.attached || v.st.value.cursor == e.start))
    ensures var h := w.live[x];
      Inv(e, World(w.c.(lib := Put(w.c.lib, h.raw.ptr, v)), w.live[x := h.(rows := rows)]))
  {
    var h := w.live[x];
    var live, l := w.live[x := h.(rows := rows)], Put(w.c.lib, h.raw.ptr, v);
    assert HeldApart(live);
    assert Out(live) == Out(w.live) && (h.raw.ptr == 0 || h.raw.ptr in Out(w.live)) by {
      assert h.raw.ptr != 0 ==> h.raw.ptr in Out(w.live);
      OutWith(w.live, x, h.(rows := rows));
    }
    assert AllHeldOk(e, l, live) by {
      forall y | y in live
        ensures HeldOk(e, l, live[y])
      {
        assert HeldOk(e, w.c.lib, w.live[y]);
        assert y != x ==> live[y] == w.live[y];
      }
    }
    PutKeeps(e, w.c, Out(w.live), h.raw.ptr, v);
  }

  lemma OnKeeps<D, C>(e: Engine<D, C>, w: World<D, C>, x: nat, u: Use)
    requires Inv(e, w) && x in w.live
    ensures Inv(e, Step(e, w, On(x, u)).0)
  {
    var h := w.live[x];
    var at := At(w.c.lib, h.raw.ptr);
    assert 0 !in w.c.lib.open;
    UseRests(e, at, h.rows, u);
    var (v, rows, seen) := UseStmt(e, at, h.rows, u);
    PutHeldKeeps(e, w, x, v, rows);
    assert Step(e, w, On(x, u)).0 == World(w.c.(lib := Put(w.c.lib, h.raw.ptr, v)), w.live[x := h.(rows := rows)]);
  }

  lemma PrepareStepKeeps<D, C>(e: Engine<D, C>, w: World<D, C>, op: Op<D>)
    requires Inv(e, w) && (op.Prepare? || op.PrepareCached?) && op.x !in w.live
    ensures Inv(e, Step(e, w, op).0)
  {
    if op.PrepareCached? {
      GetGivesFresh(e, w.c, Out(w.live), op.sql);
      var (c, r) := Get(e, w.c, op.sql);
      KeepKeeps(e, w, c, op.x, r);
    } else {
      PrepareKeeps(e, w.c, Out(w.live), op.sql);
      var (l, r) := CPrepare(e, w.c.lib, op.sql);
      KeepKeeps(e, w, w.c.(lib := l), op.x,
                match r case Failure(err) => Failure(err) case Success(p) => Success(Raw(p, None)));
    }
  }

  lemma FlushKeeps<D, C>(e: Engine<D, C>, w: World<D, C>)
    requires Inv(e, w)
    ensures Inv(e, World(Flush(w.c), w.live))
  {
    EvictKeeps(e, w.c, Out(w.live), |w.c.entries|);
    SameHeld(e, w, Flush(w.c));
  }

  lemma ResizeKeeps<D, C>(e: Engine<D, C>, w: World<D, C>, n: nat)
    requires Inv(e, w)
    ensures Inv(e, World(SetCapacity(w.c, n), w.live))
  {
    ResizeCacheKeeps(e, w.c, Out(w.live), n);
    SameHeld(e, w, SetCapacity(w.c, n));
  }

  lemma StepKeeps<D, C>(e: Engine<D, C>, w: World<D, C>, op: Op<D>)
    requires Inv(e, w)
    ensures Inv(e, Step(e, w, op).0)
  {
    if (op.Prepare? || op.PrepareCached?) && op.x !in w.live {
      PrepareStepKeeps(e, w, op);
    } else if op.On? && op.x in w.live {
      OnKeeps(e, w, op.x, op.use);
    } else if (op.Discard? || op.Drop?) && op.x in w.live {
      DoneWith(e, w, op.x, op.Discard? || w.live[op.x].raw.key.None?);
    } else if op.FlushCache? {
      FlushKeeps(e, w);
    } else if op.Resize? {
      ResizeKeeps(e, w, op.capacity);
    }
  }

  lemma SameHeld<D, C>(e: Engine<D, C>, w: World<D, C>, c: Cache<D, C>)
    requires Inv(e, w) && CacheInv(e, c, Out(w.live)) && Untouched(w.c, c, Out(w.live))
    ensures Inv(e, World(c, w.live))
  {
    forall y | y in w.live
      ensures HeldOk(e, c.lib, w.live[y])
    {
      if w.live[y].raw.ptr != 0 {
        assert w.live[y].raw.ptr in Out(w.live);
      }
    }
  }

  lemma DoneWith<D, C>(e: Engine<D, C>, w: World<D, C>, x: nat, discard: bool)
    requires Inv(e, w) && x in w.live
    ensures var w1 := LetGo(e, w, x); var raw := w.live[x].raw;
      Inv(e, w1.(c := if discard then w1.c.(lib := CFinalize(w1.c.lib, raw.ptr)) else CacheStmt(w1.c, raw)))
  {
    var w1, raw, out := LetGo(e, w, x), w.live[x].raw, Out(w.live);
    LetGoKeeps(e, w, x);
    var c := if discard then w1.c.(lib := CFinalize(w1.c.lib, raw.ptr)) else CacheStmt(w1.c, raw);
    if raw.ptr == 0 {
      assert out - {0} == out;
    } else if discard {
      FinalizeKeeps(e, w1.c, out, raw.ptr);
    } else {
      CacheStmtKeeps(e, w1.c, out, raw);
    }
    GoneKeeps(e, w, x, c);
  }

  lemma {:induction false} RunKeeps<D, C>(e: Engine<D, C>, w: World<D, C>, ops: seq<Op<D>>)
    requires Inv(e, w)
    ensures Inv(e, Run(e, w, ops).0)
    decreases |ops|
  {
    if ops != [] {
      StepKeeps(e, w, ops[0]);
      RunKeeps(e, Step(e, w, ops[0]).0, ops[1..]);
    }
  }

  // ---- Conservation of handles -------------------------------------------

  ghost predicate InCache<D, C>(w: World<D, C>, p: nat) {
    exists i | 0 <= i < |w.c.entries| :: w.c.entries[i].ptr == p
  }

  ghost predicate InLive<D, C>(w: World<D, C>, p: nat) {
    exists x | x in w.live :: w.live[x].raw.ptr == p
  }

  /**
   * After any run every handle ever created is in exactly one place: the cache,
   * one live statement, or the list of finalized handles, once. The cache holds
   * one entry a key and no more than its capacity. No handle was finalized that was
   * not open, and every statement a caller can still use has an open handle.
   */
  lemma HandlesConserved<D, C>(e: Engine<D, C>, db: D, capacity: nat, ops: seq<Op<D>>, p: nat)
    ensures var w := Run(e, Start(db, capacity), ops).0;
      && !w.c.lib.faulted
      && (forall x | x in w.live && w.live[x].raw.ptr != 0 :: w.live[x].raw.ptr in w.c.lib.open)
      && Distinct(w.c.lib.finalized)
      && |w.c.entries| <= w.c.capacity
      && (forall i, j | 0 <= i < j < |w.c.entries| ::
            w.c.entries[i].key != w.c.entries[j].key && w.c.entries[i].ptr != w.c.entries[j].ptr)
      && (forall x, y | x in w.live && y in w.live && x != y && w.live[x].raw.ptr == p != 0 :: w.live[y].raw.ptr != p)
      && (1 <= p <= w.c.lib.created <==> p != 0 && (InCache(w, p) || InLive(w, p) || p in w.c.lib.finalized))
      && (p != 0 ==>
            && !(InCache(w, p) && InLive(w, p))
            && !((InCache(w, p) || InLive(w, p)) && p in w.c.lib.finalized))
  {
    var s := Start<D, C>(db, capacity);
    assert Inv(e, s);
    RunKeeps(e, s, ops);
    var w := Run(e, s, ops).0;
    assert InCache(w, p) <==> p in Ptrs(w.c.entries);
    assert p != 0 ==> (InLive(w, p) <==> p in Out(w.live));
    assert p in w.c.lib.open <==> p in Ptrs(w.c.entries) || p in Out(w.live);
  }

  /** `Connection::close`: flush, then sqlite3_close, which refuses while a handle is open. */
  function Close<D, C>(w: World<D, C>): (World<D, C>, int) {
    var w1 := w.(c := Flush(w.c));
    (w1, if w1.c.lib.open == map[] then SQLITE_OK else SQLITE_BUSY)
  }

  /** Close succeeds exactly when no caller still holds a statement that compiled to something. */
  lemma CloseExactly<D, C>(e: Engine<D, C>, db: D, capacity: nat, ops: seq<Op<D>>)
    ensures var w := Run(e, Start(db, capacity), ops).0;
      Close(w).1 == SQLITE_OK <==> forall x | x in w.live :: w.live[x].raw.ptr == 0
  {
    var s := Start<D, C>(db, capacity);
    assert Inv(e, s);
    RunKeeps(e, s, ops);
    var w := Run(e, s, ops).0;
    EvictKeeps(e, w.c, Out(w.live), |w.c.entries|);
    var open := Flush(w.c).lib.open;
    assert open.Keys == Out(w.live);
    assert open == map[] <==> open.Keys == {};
    assert forall x | x in w.live && w.live[x].raw.ptr != 0 :: w.live[x].raw.ptr in Out(w.live);
  }

  // ---- Refinement --------------------------------------------------------

  /** A hit on a text that would no longer compile is the only way to tell the two apart. */
  predicate HitCompiles<D, C>(e: Engine<D, C>, w: World<D, C>, op: Op<D>) {
    op.PrepareCached? && op.x !in w.live && Find(w.c.entries, Trim(op.sql)) < |w.c.entries| ==>
      e.compile(w.c.lib.db, Trim(op.sql)) == Program
  }

  predicate HitsCompile<D, C(==)>(e: Engine<D, C>, w: World<D, C>, ops: seq<Op<D>>)
    decreases |ops|
  {
    ops != [] ==> HitCompiles(e, w, ops[0]) && HitsCompile(e, Step(e, w, ops[0]).0, ops[1..])
  }

  ghost predicate Same<D, C>(w: World<D, C>, f: Plain<D, C>) {
    && w.c.lib.db == f.db
    && w.live.Keys == f.live.Keys
    && forall x | x in w.live ::
         Owned(At(w.c.lib, w.live[x].raw.ptr).st, w.live[x].rows) == f.live[x]
  }

  lemma KeepAgrees<D, C>(e: Engine<D, C>, w: World<D, C>, f: Plain<D, C>, c: Cache<D, C>, x: nat, r: Result<Raw, Error>, text: string)
    requires Inv(e, w) && Same(w, f) && x !in w.live
    requires Untouched(w.c, c, Out(w.live)) && 0 !in c.lib.open
    requires match e.compile(f.db, text)
             case Rejected(error, _) => r == Failure(error)
             case NoStatement => r.Success? && r.value.ptr == 0
             case Program => r.Success? && r.value.ptr in c.lib.open && Fresh(e, c.lib.open[r.value.ptr], text)
    ensures var (w', seen) := Keep(w, c, x, r); var (f', seen') := Compile(e, f, x, text);
      seen == seen' && Same(w', f')
  {
    assert forall y | y in w.live && w.live[y].raw.ptr != 0 :: w.live[y].raw.ptr in Out(w.live);
    var w', f' := Keep(w, c, x, r).0, Compile(e, f, x, text).0;
    assert 0 !in w.c.lib.open;
    if r.Success? {
      assert w'.live.Keys == w.live.Keys + {x};
      assert f'.live.Keys == f.live.Keys + {x};
    }
    forall y | y in w'.live
      ensures Owned(At(w'.c.lib, w'.live[y].raw.ptr).st, w'.live[y].rows) == f'.live[y]
    {
      if y != x {
        assert w'.live[y] == w.live[y];
      }
    }
  }

  lemma PrepareAgrees<D, C>(e: Engine<D, C>, w: World<D, C>, f: Plain<D, C>, op: Op<D>)
    requires Inv(e, w) && Same(w, f) && (op.Prepare? || op.PrepareCached?) && op.x !in w.live
    ensures HitCompiles(e, w, op) <==> Step(e, w, op).1 == PlainStep(e, f, op).1
    ensures HitCompiles(e, w, op) ==> Same(Step(e, w, op).0, PlainStep(e, f, op).0)
  {
    var out := Out(w.live);
    if op.Prepare? {
      PrepareKeeps(e, w.c, out, op.sql);
      var (l, r) := CPrepare(e, w.c.lib, op.sql);
      KeepAgrees(e, w, f, w.c.(lib := l), op.x,
                 match r case Failure(err) => Failure(err) case Success(p) => Success(Raw(p, None)), op.sql);
    } else {
      var key := Trim(op.sql);
      GetGivesFresh(e, w.c, out, op.sql);
      var (c, r) := Get(e, w.c, op.sql);
      var i := Find(w.c.entries, key);
      if i < |w.c.entries| {
        assert r.Success? && r.value.ptr == w.c.entries[i].ptr && r.value.ptr != 0;
        assert Step(e, w, op).1 == Prepared(false);
      }
      if HitCompiles(e, w, op) {
        KeepAgrees(e, w, f, c, op.x, r, key);
      }
    }
  }

  /** Giving a statement back, finalizing it or throwing it away looks the same to everyone else. */
  lemma GoneAgrees<D, C>(e: Engine<D, C>, w: World<D, C>, f: Plain<D, C>, x: nat, c: Cache<D, C>)
    requires Inv(e, w) && Same(w, f) && x in w.live
    requires Untouched(LetGo(e, w, x).c, c, Out(w.live) - {w.live[x].raw.ptr}) && 0 !in c.lib.open
    ensures Same(World(c, w.live - {x}), Forget(e, f, x).0)
  {
    var f' := Forget(e, f, x).0;
    LetGoKeeps(e, w, x);
    assert (w.live - {x}).Keys == w.live.Keys - {x} == f'.live.Keys;
    forall y | y in w.live - {x}
      ensures Owned(At(c.lib, w.live[y].raw.ptr).st, w.live[y].rows) == f'.live[y]
    {
      assert 0 !in w.c.lib.open;
      if w.live[y].raw.ptr != 0 {
        assert w.live[y].raw.ptr in Out(w.live);
      }
    }
  }

  lemma SweepAgrees<D, C>(e: Engine<D, C>, w: World<D, C>, f: Plain<D, C>, c: Cache<D, C>)
    requires Inv(e, w) && Same(w, f)
    requires Untouched(w.c, c, Out(w.live)) && 0 !in c.lib.open
    ensures Same(World(c, w.live), f)
  {
    assert 0 !in w.c.lib.open;
    assert forall y | y in w.live && w.live[y].raw.ptr != 0 :: w.live[y].raw.ptr in Out(w.live);
  }

  lemma GoneStepAgrees<D, C>(e: Engine<D, C>, w: World<D, C>, f: Plain<D, C>, op: Op<D>)
    requires Inv(e, w) && Same(w, f) && 0 !in Step(e, w, op).0.c.lib.open
    requires (op.Discard? || op.Drop?) && op.x in w.live
    ensures Step(e, w, op).1 == PlainStep(e, f, op).1
    ensures Same(Step(e, w, op).0, PlainStep(e, f, op).0)
  {
    if op.Discard? {
      DiscardUntouched(e, w, op.x);
    } else {
      DropUntouched(e, w, op.x);
    }
    GoneAgrees(e, w, f, op.x, Step(e, w, op).0.c);
  }

  lemma FlushAgrees<D, C>(e: Engine<D, C>, w: World<D, C>, f: Plain<D, C>)
    requires Inv(e, w) && Same(w, f) && 0 !in Flush(w.c).lib.open
    ensures Same(World(Flush(w.c), w.live), f)
  {
    EvictKeeps(e, w.c, Out(w.live), |w.c.entries|);
    SweepAgrees(e, w, f, Flush(w.c));
  }

  lemma ResizeAgrees<D, C>(e: Engine<D, C>, w: World<D, C>, f: Plain<D, C>, n: nat)
    requires Inv(e, w) && Same(w, f) && 0 !in SetCapacity(w.c, n).lib.open
    ensures Same(World(SetCapacity(w.c, n), w.live), f)
  {
    ResizeCacheKeeps(e, w.c, Out(w.live), n);
    SweepAgrees(e, w, f, SetCapacity(w.c, n));
  }

  lemma StepAgrees<D, C>(e: Engine<D, C>, w: World<D, C>, f: Plain<D, C>, op: Op<D>)
    requires Inv(e, w) && Same(w, f) && 0 !in Step(e, w, op).0.c.lib.open
    ensures HitCompiles(e, w, op) <==> Step(e, w, op).1 == PlainStep(e, f, op).1
    ensures HitCompiles(e, w, op) ==> Same(Step(e, w, op).0, PlainStep(e, f, op).0)
  {
    if (op.Prepare? || op.PrepareCached?) && op.x !in w.live {
      PrepareAgrees(e, w, f, op);
    } else if op.On? && op.x in w.live {
      UseAgrees(e, w, f, op.x, op.use);
    } else if (op.Discard? || op.Drop?) && op.x in w.live {
      GoneStepAgrees(e, w, f, op);
    } else if op.FlushCache? {
      FlushAgrees(e, w, f);
    } else if op.Resize? {
      ResizeAgrees(e, w, f, op.capacity);
    } else if op.Elsewhere? {
      assert forall p :: At(w.c.lib.(db := op.db), p).st == At(w.c.lib, p).st;
    }
  }

  lemma DiscardUntouched<D, C>(e: Engine<D, C>, w: World<D, C>, x: nat)
    requires Inv(e, w) && x in w.live
    ensures Untouched(LetGo(e, w, x).c, Step(e, w, Discard(x)).0.c, Out(w.live) - {w.live[x].raw.ptr})
  {
    LetGoKeeps(e, w, x);
    var c, p := LetGo(e, w, x).c, w.live[x].raw.ptr;
    assert Step(e, w, Discard(x)).0.c == c.(lib := CFinalize(c.lib, p));
    if p != 0 {
      FinalizeKeeps(e, c, Out(w.live), p);
    }
  }

  lemma DropUntouched<D, C>(e: Engine<D, C>, w: World<D, C>, x: nat)
    requires Inv(e, w) && x in w.live
    ensures Untouched(LetGo(e, w, x).c, Step(e, w, Drop(x)).0.c, Out(w.live) - {w.live[x].raw.ptr})
  {
    LetGoKeeps(e, w, x);
    var c, raw := LetGo(e, w, x).c, w.live[x].raw;
    assert Step(e, w, Drop(x)).0.c == GiveUp(c, raw);
    if raw.key.None? {
      DiscardUntouched(e, w, x);
    } else if raw.ptr != 0 {
      CacheStmtKeeps(e, c, Out(w.live), raw);
    }
  }

  lemma PutAgrees<D, C>(e: Engine<D, C>, w: World<D, C>, f: Plain<D, C>, x: nat, v: View<D, C>, rows: RowsState)
    requires Inv(e, w) && Same(w, f) && x in w.live
    requires v.st.Some? <==> w.live[x].raw.ptr in w.c.lib.open
    ensures var h := w.live[x];
      Same(World(w.c.(lib := Put(w.c.lib, h.raw.ptr, v)), w.live[x := h.(rows := rows)]),
           Plain(v.db, f.live[x := Owned(v.st, rows)]))
  {
    var h := w.live[x];
    var l, live, owned := Put(w.c.lib, h.raw.ptr, v), w.live[x := h.(rows := rows)], f.live[x := Owned(v.st, rows)];
    assert 0 !in w.c.lib.open;
    assert live.Keys == w.live.Keys && owned.Keys == f.live.Keys;
    forall y | y in live
      ensures Owned(At(l, live[y].raw.ptr).st, live[y].rows) == owned[y]
    {
      if y != x {
        assert live[y] == w.live[y] && owned[y] == f.live[y];
      }
    }
  }

  lemma UseAgrees<D, C>(e: Engine<D, C>, w: World<D, C>, f: Plain<D, C>, x: nat, u: Use)
    requires Inv(e, w) && Same(w, f) && x in w.live
    ensures Step(e, w, On(x, u)).1 == PlainStep(e, f, On(x, u)).1
    ensures Same(Step(e, w, On(x, u)).0, PlainStep(e, f, On(x, u)).0)
  {
    var h := w.live[x];
    var at := At(w.c.lib, h.raw.ptr);
    assert 0 !in w.c.lib.open;
    UseRests(e, at, h.rows, u);
    assert View(f.db, f.live[x].st) == at && f.live[x].rows == h.rows;
    var (v, rows, seen) := UseStmt(e, at, h.rows, u);
    PutAgrees(e, w, f, x, v, rows);
  }

  lemma {:induction false} RunAgrees<D, C>(e: Engine<D, C>, w: World<D, C>, f: Plain<D, C>, ops: seq<Op<D>>)
    requires Inv(e, w) && Same(w, f)
    ensures Run(e, w, ops).1 == PlainRun(e, f, ops) <==> HitsCompile(e, w, ops)
    decreases |ops|
  {
    if ops != [] {
      StepKeeps(e, w, ops[0]);
      assert 0 !in Step(e, w, ops[0]).0.c.lib.open;
      StepAgrees(e, w, f, ops[0]);
      var w', seen := Step(e, w, ops[0]).0, Run(e, w, ops).1;
      var f', seen' := PlainStep(e, f, ops[0]).0, PlainRun(e, f, ops);
      assert seen[0] == Step(e, w, ops[0]).1 && seen[1..] == Run(e, w', ops[1..]).1;
      assert seen'[0] == PlainStep(e, f, ops[0]).1 && seen'[1..] == PlainRun(e, f', ops[1..]);
      assert seen == [seen[0]] + seen[1..] && seen' == [seen'[0]] + seen'[1..];
      if HitCompiles(e, w, ops[0]) {
        RunAgrees(e, w', f', ops[1..]);
      }
    }
  }

  /**
   * A run with the cache shows its caller what the run without it shows exactly
   * when every hit is on a text that would still compile.
   */
  lemma CacheIsInvisible<D, C>(e: Engine<D, C>, db: D, capacity: nat, ops: seq<Op<D>>)
    ensures Run(e, Start(db, capacity), ops).1 == PlainRun(e, Plain(db, map[]), ops)
       <==> HitsCompile(e, Start(db, capacity), ops)
  {
    var s := Start<D, C>(db, capacity);
    assert Inv(e, s);
    RunAgrees(e, s, Plain(db, map[]), ops);
  }

  // ---- When nothing changes what compiles --------------------------------

  ghost predicate StillCompile<D, C>(e: Engine<D, C>, l: Lib<D, C>) {
    forall p | p in l.open :: e.compile(l.db, l.open[p].text) == Program
  }

  ghost predicate Stable<D(!new), C>(e: Engine<D, C>) {
    forall db, db', text :: e.compile(db, text) == e.compile(db', text)
  }

  /** Every handle open afterwards has the text it had before. */
  ghost predicate SameTexts<D, C>(l: Lib<D, C>, l': Lib<D, C>) {
    forall p | p in l'.open :: p in l.open && l'.open[p].text == l.open[p].text
  }

  lemma {:induction false} EvictTexts<D, C>(c: Cache<D, C>, n: nat)
    requires n <= |c.entries|
    ensures SameTexts(c.lib, Evict(c, n).lib)
    decreases n
  {
    if n > 0 {
      EvictTexts(Cache(CFinalize(c.lib, c.entries[0].ptr), c.entries[1..], c.capacity), n - 1);
    }
  }

  lemma InsertTexts<D, C>(c: Cache<D, C>, key: string, raw: Raw)
    ensures SameTexts(c.lib, Insert(c, key, raw).lib)
  {
    var i := Find(c.entries, key);
    var c1 := if i < |c.entries| then
      Cache(CFinalize(c.lib, c.entries[i].ptr), Without(c.entries, i) + [raw], c.capacity)
    else c.(entries := c.entries + [raw]);
    assert SameTexts(c.lib, c1.lib);
    EvictTexts(c1, 1);
  }

  lemma CacheStmtTexts<D, C>(c: Cache<D, C>, raw: Raw)
    ensures SameTexts(c.lib, CacheStmt(c, raw).lib)
  {
    if raw.ptr != 0 && raw.key.Some? {
      var cleared := c.(lib := Put(c.lib, raw.ptr, CClear(At(c.lib, raw.ptr))));
      assert SameTexts(c.lib, cleared.lib);
      InsertTexts(cleared, raw.key.value, raw);
    }
  }

  lemma SameTextsCompile<D(!new), C>(e: Engine<D, C>, l: Lib<D, C>, l': Lib<D, C>)
    requires Stable(e) && StillCompile(e, l) && SameTexts(l, l')
    ensures StillCompile(e, l')
  {
    forall p | p in l'.open
      ensures e.compile(l'.db, l'.open[p].text) == Program
    {
      assert e.compile(l.db, l.open[p].text) == Program;
    }
  }

  lemma LetGoTexts<D, C>(e: Engine<D, C>, w: World<D, C>, x: nat)
    requires Inv(e, w) && x in w.live
    ensures var c := LetGo(e, w, x).c; var raw := w.live[x].raw;
      && SameTexts(w.c.lib, CFinalize(c.lib, raw.ptr))
      && SameTexts(w.c.lib, GiveUp(c, raw).lib)
  {
    var c := LetGo(e, w, x).c;
    assert 0 !in w.c.lib.open;
    assert SameTexts(w.c.lib, c.lib);
    CacheStmtTexts(c, w.live[x].raw);
  }

  lemma OnTexts<D, C>(e: Engine<D, C>, w: World<D, C>, x: nat, u: Use)
    requires Inv(e, w) && x in w.live
    ensures SameTexts(w.c.lib, Step(e, w, On(x, u)).0.c.lib)
  {
    var at := At(w.c.lib, w.live[x].raw.ptr);
    assert 0 !in w.c.lib.open;
    UseRests(e, at, w.live[x].rows, u);
    var (v, rows, seen) := UseStmt(e, at, w.live[x].rows, u);
    assert Step(e, w, On(x, u)).0.c.lib == Put(w.c.lib, w.live[x].raw.ptr, v);
  }

  lemma SweepTexts<D, C>(w: World<D, C>, n: nat)
    ensures SameTexts(w.c.lib, SetCapacity(w.c, n).lib)
    ensures n == 0 ==> SetCapacity(w.c, n).lib == Flush(w.c).lib
  {
    EvictTexts(w.c, if n < |w.c.entries| then |w.c.entries| - n else 0);
  }

  /** Nothing but a compile brings a new text. */
  lemma StepTexts<D, C>(e: Engine<D, C>, w: World<D, C>, op: Op<D>)
    requires Inv(e, w) && !op.Prepare? && !op.PrepareCached?
    ensures SameTexts(w.c.lib, Step(e, w, op).0.c.lib)
  {
    if op.On? && op.x in w.live {
      OnTexts(e, w, op.x, op.use);
    } else if (op.Discard? || op.Drop?) && op.x in w.live {
      LetGoTexts(e, w, op.x);
    } else if op.FlushCache? || op.Resize? {
      SweepTexts(w, if op.FlushCache? then 0 else op.capacity);
    }
  }

  lemma PreparedCompiles<D, C>(e: Engine<D, C>, w: World<D, C>, op: Op<D>)
    requires StillCompile(e, w.c.lib) && (op.Prepare? || op.PrepareCached?)
    ensures StillCompile(e, Step(e, w, op).0.c.lib)
  {
    var text := if op.Prepare? then op.sql else Trim(op.sql);
    var l := Step(e, w, op).0.c.lib;
    assert l == w.c.lib || l == CPrepare(e, w.c.lib, text).0;
  }

  lemma StableStep<D(!new), C>(e: Engine<D, C>, w: World<D, C>, op: Op<D>)
    requires Inv(e, w) && Stable(e) && StillCompile(e, w.c.lib)
    ensures StillCompile(e, Step(e, w, op).0.c.lib)
  {
    if op.Prepare? || op.PrepareCached? {
      PreparedCompiles(e, w, op);
    } else {
      StepTexts(e, w, op);
      SameTextsCompile(e, w.c.lib, Step(e, w, op).0.c.lib);
    }
  }

  lemma {:induction false} StableHits<D(!new), C>(e: Engine<D, C>, w: World<D, C>, ops: seq<Op<D>>)
    requires Inv(e, w) && Stable(e) && StillCompile(e, w.c.lib)
    ensures HitsCompile(e, w, ops)
    decreases |ops|
  {
    if ops != [] {
      StepKeeps(e, w, ops[0]);
      StableStep(e, w, ops[0]);
      StableHits(e, Step(e, w, ops[0]).0, ops[1..]);
    }
  }

  /** While no text changes whether it compiles, no run can notice the cache. */
  lemma StableCacheIsInvisible<D(!new), C>(e: Engine<D, C>, db: D, capacity: nat, ops: seq<Op<D>>)
    requires Stable(e)
    ensures Run(e, Start(db, capacity), ops).1 == PlainRun(e, Plain(db, map[]), ops)
  {
    var s := Start<D, C>(db, capacity);
    assert Inv(e, s);
    StableHits(e, s, ops);
    CacheIsInvisible(e, db, capacity, ops);
  }

  // ---- When it does ------------------------------------------------------

  /** A database that has the table or not, and a text that needs it. */
  function TableEngine(): Engine<bool, int> {
    Engine(
      (db: bool, text: string) => if db then Program else Rejected(SqliteFailure(1), 0),
      (_: string) => 0, (_: string, _: string) => None, (_: string) => true, (_: Value) => SQLITE_OK, 0,
      (db: bool, _: string, _: seq<Value>, c: int) => Sqlite.Stepped(db, c, SQLITE_DONE, []),
      (db: bool, _: string, _: seq<Value>, _: int) => (db, SQLITE_OK),
      (_: bool) => 0, (_: bool) => 0)
  }

  lemma {:induction false} RunInTwo<D, C>(e: Engine<D, C>, w: World<D, C>, ops: seq<Op<D>>, k: nat)
    requires k <= |ops|
    ensures HitsCompile(e, w, ops) ==> HitsCompile(e, Run(e, w, ops[..k]).0, ops[k..])
    decreases k
  {
    if k > 0 {
      assert ops[..k][1..] == ops[1..][..k - 1] && ops[1..][k - 1..] == ops[k..];
      RunInTwo(e, Step(e, w, ops[0]).0, ops[1..], k - 1);
    } else {
      assert ops[..0] == [] && ops[0..] == ops;
    }
  }

  /** A statement prepared and dropped stays in the cache while the table goes. */
  lemma TableDroppedLater()
    ensures var e, s := TableEngine(), Start<bool, int>(true, 16);
      var w := Step(e, Step(e, Step(e, s, PrepareCached(0, "t")).0, Drop(0)).0, Elsewhere(false)).0;
      w.c.entries == [Raw(1, Some("t"))] && w.live == map[] && !w.c.lib.db
  {
    var e, s := TableEngine(), Start<bool, int>(true, 16);
    assert TrimStart("t") == "t" && TrimEnd("t") == "t";
    var w1 := Step(e, s, PrepareCached(0, "t")).0;
    assert w1.live[0].raw == Raw(1, Some("t")) && w1.c.entries == [];
  }

  /** After the table is dropped the cached statement is still handed out; compiling would fail. */
  lemma DroppedTableIsNoticed()
    ensures var ops := [PrepareCached(0, "t"), Drop(0), Elsewhere(false), PrepareCached(0, "t")];
      Run(TableEngine(), Start(true, 16), ops).1 != PlainRun(TableEngine(), Plain(true, map[]), ops)
  {
    var e, s := TableEngine(), Start<bool, int>(true, 16);
    var ops := [PrepareCached(0, "t"), Drop(0), Elsewhere(false), PrepareCached(0, "t")];
    var w1, w2 := Step(e, s, ops[0]).0, Step(e, Step(e, s, ops[0]).0, ops[1]).0;
    var w3 := Step(e, w2, ops[2]).0;
    TableDroppedLater();
    assert ops[..3] == [ops[0], ops[1], ops[2]];
    assert [ops[0], ops[1], ops[2]][1..] == [ops[1], ops[2]] && [ops[1], ops[2]][1..] == [ops[2]] && [ops[2]][1..] == [];
    assert Run(e, w2, [ops[2]]).0 == w3;
    assert Run(e, w1, [ops[1], ops[2]]).0 == w3;
    assert Run(e, s, ops[..3]).0 == w3;
    assert Trim("t") == "t" by {
      assert TrimStart("t") == "t" && TrimEnd("t") == "t";
    }
    assert ops[3..][0] == ops[3] && !HitCompiles(e, w3, ops[3]);
    RunInTwo(e, s, ops, 3);
    CacheIsInvisible(e, true, 16, ops);
  }
}
