// The glue between SQLite's aggregate callbacks and a Rust accumulator kept in
// a box behind a pointer that SQLite stores for the group.
module Aggregates {
  import opened Wrappers

  /**
   * A user's aggregate: `init` may fail; `step` and `inverse` give the
   * accumulator they leave and whether they succeeded, a panic being a failure;
   * `peek` is what `value` leaves behind of the accumulator it may change.
   */
  datatype Aggregate<!R, !A, !T> = Aggregate(
    init: R -> Option<A>,
    step: (A, R) -> (A, bool),
    inverse: (A, R) -> (A, bool),
    value: Option<A> -> T,
    peek: A -> A,
    finalize: Option<A> -> T)

  /**
   * One group. `memory`: SQLite has given the group its zeroed block; `slot`:
   * the pointer in it, 0 being null; `boxes`: the boxes alive; `made` and
   * `freed`: boxes ever made and freed; `fault`: a null or dead pointer was followed.
   */
  datatype Group<+A> = Group(memory: bool, slot: nat, boxes: map<nat, A>, made: nat, freed: seq<nat>, fault: bool)

  datatype Report<+T> = Fine | Failed | NoMem | Answer(value: T)

  datatype Call<+R> = Step(row: R, memOk: bool) | Inverse(row: R, memOk: bool) | Value

  function NewGroup<A>(): Group<A> {
    Group(false, 0, map[], 0, [], false)
  }

  /** sqlite3_aggregate_context: allocates on first use unless asked for 0 bytes. */
  function Context<A>(g: Group<A>, wanted: bool, memOk: bool): Group<A> {
    if !g.memory && wanted && memOk then g.(memory := true, slot := 0) else g
  }

  function CallStep<R, A, T>(agg: Aggregate<R, A, T>, g: Group<A>, row: R, memOk: bool): (Group<A>, Report<T>) {
    var g1 := Context(g, true, memOk);
    if !g1.memory then (g1, NoMem)
    else if g1.slot == 0 && agg.init(row).None? then (g1, Failed)
    else
      var g2 :=
        if g1.slot == 0 then
          g1.(slot := g1.made + 1, boxes := g1.boxes[g1.made + 1 := agg.init(row).value], made := g1.made + 1)
        else g1;
      Through(g2, agg.step, row)
  }

  function CallInverse<R, A, T>(agg: Aggregate<R, A, T>, g: Group<A>, row: R, memOk: bool): (Group<A>, Report<T>) {
    var g1 := Context(g, true, memOk);
    if !g1.memory then (g1, NoMem) else Through(g1, agg.inverse, row)
  }

  /** Runs `f` on the accumulator behind the pointer, whatever the pointer is. */
  function Through<R, A, T>(g: Group<A>, f: (A, R) -> (A, bool), row: R): (Group<A>, Report<T>) {
    if g.slot !in g.boxes then (g.(fault := true), Failed)
    else
      var (acc, ok) := f(g.boxes[g.slot], row);
      (g.(boxes := g.boxes[g.slot := acc]), if ok then Fine else Failed)
  }

  function CallValue<R, A, T>(agg: Aggregate<R, A, T>, g: Group<A>): (Group<A>, Report<T>) {
    if !g.memory || g.slot == 0 then (g, Answer(agg.value(None)))
    else if g.slot !in g.boxes then (g.(fault := true), Failed)
    else (g.(boxes := g.boxes[g.slot := agg.peek(g.boxes[g.slot])]), Answer(agg.value(Some(g.boxes[g.slot]))))
  }

  /** The accumulator handed to `finalize`, moved out of its box. */
  function Taken<A>(g: Group<A>): (Group<A>, Option<A>) {
    if !g.memory || g.slot == 0 then (g, None)
    else if g.slot !in g.boxes then (g.(fault := true), None)
    else (g.(boxes := g.boxes - {g.slot}, freed := g.freed + [g.slot]), Some(g.boxes[g.slot]))
  }

  function CallFinal<R, A, T>(agg: Aggregate<R, A, T>, g: Group<A>): (Group<A>, Report<T>) {
    (Taken(g).0, Answer(agg.finalize(Taken(g).1)))
  }

  // ---- The callbacks ---------------------------------------------------------

  class GroupContext<R, A, T> {
    const agg: Aggregate<R, A, T>
    var memory: bool
    var slot: nat
    var boxes: map<nat, A>
    var made: nat
    var freed: seq<nat>
    var fault: bool

    constructor (agg: Aggregate<R, A, T>)
      ensures this.agg == agg && Now() == NewGroup()
    {
      this.agg := agg;
      memory, slot, boxes, made, freed, fault := false, 0, map[], 0, [], false;
    }

    ghost function Now(): Group<A>
      reads this
    {
      Group(memory, slot, boxes, made, freed, fault)
    }

    /** `aggregate_context`: the group's block, zeroed when it is first asked for. */
    method AggregateContext(wanted: bool, memOk: bool) returns (found: bool)
      modifies this
      ensures Now() == Context(old(Now()), wanted, memOk) && found == memory
    {
      if !memory && wanted && memOk {
        memory, slot := true, 0;
      }
      found := memory;
    }

    /** The accumulator is reached through the slot whatever is in it. */
    method FollowSlot(f: (A, R) -> (A, bool), row: R) returns (report: Report<T>)
      modifies this
      ensures (Now(), report) == Through(old(Now()), f, row)
    {
      if slot !in boxes {
        fault := true;
        return Failed;
      }
      var (acc, ok) := f(boxes[slot], row);
      boxes := boxes[slot := acc];
      report := if ok then Fine else Failed;
    }

    method CallBoxedStep(row: R, memOk: bool) returns (report: Report<T>)
      modifies this
      ensures (Now(), report) == CallStep(agg, old(Now()), row, memOk)
    {
      var found := AggregateContext(true, memOk);
      if !found {
        return NoMem;
      }
      if slot == 0 {
        var acc := agg.init(row);
        if acc.None? {
          return Failed;
        }
        made := made + 1;
        boxes := boxes[made := acc.value];
        slot := made;
      }
      report := FollowSlot(agg.step, row);
    }

    method CallBoxedInverse(row: R, memOk: bool) returns (report: Report<T>)
      modifies this
      ensures (Now(), report) == CallInverse(agg, old(Now()), row, memOk)
    {
      var found := AggregateContext(true, memOk);
      if !found {
        return NoMem;
      }
      report := FollowSlot(agg.inverse, row);
    }

    method CallBoxedValue() returns (report: Report<T>)
      modifies this
      ensures (Now(), report) == CallValue(agg, old(Now()))
    {
      var found := AggregateContext(false, true);
      if !found || slot == 0 {
        return Answer(agg.value(None));
      }
      if slot !in boxes {
        fault := true;
        return Failed;
      }
      report := Answer(agg.value(Some(boxes[slot])));
      boxes := boxes[slot := agg.peek(boxes[slot])];
    }

    /** The pointer in the slot is left dangling. */
    method CallBoxedFinal() returns (report: Report<T>)
      modifies this
      ensures (Now(), report) == CallFinal(agg, old(Now()))
    {
      var acc: Option<A> := None;
      var found := AggregateContext(false, true);
      if found && slot != 0 {
        if slot !in boxes {
          fault := true;
        } else {
          acc := Some(boxes[slot]);
          boxes := boxes - {slot};
          freed := freed + [slot];
        }
      }
      report := Answer(agg.finalize(acc));
    }
  }

  // ---- Who owns the accumulator ------------------------------------------------

  function OneCall<R, A, T>(agg: Aggregate<R, A, T>, g: Group<A>, call: Call<R>): (Group<A>, Report<T>) {
    match call
    case Step(row, memOk) => CallStep(agg, g, row, memOk)
    case Inverse(row, memOk) => CallInverse(agg, g, row, memOk)
    case Value => CallValue(agg, g)
  }

  function Calls<R, A, T>(agg: Aggregate<R, A, T>, g: Group<A>, calls: seq<Call<R>>): Group<A>
    decreases |calls|
  {
    if calls == [] then g else Calls(agg, OneCall(agg, g, calls[0]).0, calls[1..])
  }

  /** The group has its block after this call. */
  predicate MemoryAfter<R>(memory: bool, call: Call<R>) {
    memory || (!call.Value? && call.memOk)
  }

  /** Some step gets its memory and its `init` succeeds. */
  predicate SomeInit<R, A, T>(agg: Aggregate<R, A, T>, calls: seq<Call<R>>, memory: bool)
    decreases |calls|
  {
    calls != [] &&
    (|| (calls[0].Step? && MemoryAfter(memory, calls[0]) && agg.init(calls[0].row).Some?)
     || SomeInit(agg, calls[1..], MemoryAfter(memory, calls[0])))
  }

  /** Some inverse gets its memory before any `init` has succeeded. */
  predicate InverseTooEarly<R, A, T>(agg: Aggregate<R, A, T>, calls: seq<Call<R>>, memory: bool)
    decreases |calls|
  {
    calls != [] &&
    (|| (calls[0].Inverse? && MemoryAfter(memory, calls[0]))
     || (&& !(calls[0].Step? && MemoryAfter(memory, calls[0]) && agg.init(calls[0].row).Some?)
         && InverseTooEarly(agg, calls[1..], MemoryAfter(memory, calls[0]))))
  }

  ghost predicate Owned<A>(g: Group<A>) {
    && g.made <= 1 && g.freed == [] && g.slot == g.made
    && g.boxes.Keys == (if g.made == 1 then {1} else {})
    && (g.made == 1 ==> g.memory)
  }

  lemma OneCallKeepsOwned<R, A, T>(agg: Aggregate<R, A, T>, g: Group<A>, call: Call<R>)
    requires Owned(g)
    ensures var g' := OneCall(agg, g, call).0;
      && Owned(g') && g'.memory == MemoryAfter(g.memory, call)
      && (g'.made == 1 <==> g.made == 1 || (call.Step? && g'.memory && agg.init(call.row).Some?))
      && (g'.fault <==> g.fault || (g.made == 0 && call.Inverse? && g'.memory))
  {
  }

  lemma {:induction false} CallsKeepOwned<R, A, T>(agg: Aggregate<R, A, T>, g: Group<A>, calls: seq<Call<R>>)
    requires Owned(g)
    ensures var g' := Calls(agg, g, calls);
      && Owned(g')
      && (g'.made == 1 <==> g.made == 1 || SomeInit(agg, calls, g.memory))
      && (g'.fault <==> g.fault || (g.made == 0 && InverseTooEarly(agg, calls, g.memory)))
    decreases |calls|
  {
    if calls != [] {
      OneCallKeepsOwned(agg, g, calls[0]);
      CallsKeepOwned(agg, OneCall(agg, g, calls[0]).0, calls[1..]);
    }
  }

  /**
   * For any calls of a group, any failures and panics among them, and the final
   * one: at most one box is made, it is freed exactly once, in final, and
   * `finalize` is given an accumulator exactly when some `init` succeeded. A null
   * pointer is followed exactly when an inverse comes before that.
   */
  lemma AccumulatorFreedOnce<R, A, T>(agg: Aggregate<R, A, T>, calls: seq<Call<R>>)
    ensures var g := Calls(agg, NewGroup(), calls);
      var (end, given) := Taken(g);
      && g.freed == [] && g.made <= 1
      && end.boxes == map[]
      && end.freed == (if g.made == 1 then [1] else [])
      && (given.Some? <==> SomeInit(agg, calls, false))
      && (given.Some? ==> 1 in g.boxes && given.value == g.boxes[1])
      && (end.fault <==> InverseTooEarly(agg, calls, false))
  {
    CallsKeepOwned(agg, NewGroup(), calls);
    var g := Calls(agg, NewGroup(), calls);
    if g.made == 1 {
      assert (g.boxes - {1}).Keys == {};
    }
  }

  // ---- What the callbacks answer ------------------------------------------------

  /** The accumulator as plain threading would have it: no pointer, no box, no block. */
  function Threaded<R, A, T>(agg: Aggregate<R, A, T>, acc: Option<A>, call: Call<R>): Option<A> {
    match call
    case Step(row, _) =>
      var start := if acc.Some? then acc else agg.init(row);
      if start.None? then None else Some(agg.step(start.value, row).0)
    case Inverse(row, _) => if acc.None? then None else Some(agg.inverse(acc.value, row).0)
    case Value => if acc.None? then None else Some(agg.peek(acc.value))
  }

  /** The same over all the calls of a group; a call that gets no memory is passed over. */
  function ThreadedAll<R, A, T>(agg: Aggregate<R, A, T>, acc: Option<A>, calls: seq<Call<R>>, memory: bool): Option<A>
    decreases |calls|
  {
    if calls == [] then acc
    else
      var m := MemoryAfter(memory, calls[0]);
      ThreadedAll(agg, if m then Threaded(agg, acc, calls[0]) else acc, calls[1..], m)
  }

  /** The accumulator a group holds. */
  function Boxed<A>(g: Group<A>): Option<A> {
    if 1 in g.boxes then Some(g.boxes[1]) else None
  }

  lemma OneCallThreads<R, A, T>(agg: Aggregate<R, A, T>, g: Group<A>, call: Call<R>)
    requires Owned(g)
    ensures Boxed(OneCall(agg, g, call).0)
         == if MemoryAfter(g.memory, call) then Threaded(agg, Boxed(g), call) else Boxed(g)
  {
  }

  /** The box behind the pointer holds just what plain threading of the callbacks would give. */
  lemma {:induction false} CallsThread<R, A, T>(agg: Aggregate<R, A, T>, g: Group<A>, calls: seq<Call<R>>)
    requires Owned(g)
    ensures Boxed(Calls(agg, g, calls)) == ThreadedAll(agg, Boxed(g), calls, g.memory)
    decreases |calls|
  {
    if calls != [] {
      OneCallKeepsOwned(agg, g, calls[0]);
      OneCallThreads(agg, g, calls[0]);
      CallsThread(agg, OneCall(agg, g, calls[0]).0, calls[1..]);
    }
  }

  /**
   * So whatever the calls of a group, failures and panics among them, its last
   * answer is `finalize` of what threading gives, and an answer in between is
   * `value` of it.
   */
  lemma GroupAnswers<R, A, T>(agg: Aggregate<R, A, T>, calls: seq<Call<R>>)
    ensures var g := Calls(agg, NewGroup(), calls);
      && CallFinal(agg, g).1 == Answer(agg.finalize(ThreadedAll(agg, None, calls, false)))
      && CallValue(agg, g).1 == Answer(agg.value(ThreadedAll(agg, None, calls, false)))
  {
    CallsKeepOwned(agg, NewGroup(), calls);
    CallsThread(agg, NewGroup(), calls);
  }

  /** A group that is only stepped, the memory being there and the first `init` good, answers from the fold of its rows. */
  lemma SteppedGroupFolds<R, A, T>(agg: Aggregate<R, A, T>, rows: seq<R>)
    requires rows != [] ==> agg.init(rows[0]).Some?
    ensures CallFinal(agg, Calls(agg, NewGroup(), StepsOf(rows))).1
         == Answer(agg.finalize(if rows == [] then None else Some(Fold(agg.step, agg.init(rows[0]).value, rows))))
  {
    GroupAnswers(agg, StepsOf(rows));
    if rows != [] {
      var a := agg.init(rows[0]).value;
      ThreadedIsFold(agg, agg.step(a, rows[0]).0, rows[1..]);
      FoldHead(agg.step, a, rows);
    }
  }

  function StepsOf<R>(rows: seq<R>): (calls: seq<Call<R>>)
    ensures |calls| == |rows|
    ensures rows != [] ==> calls[0] == Step(rows[0], true) && calls[1..] == StepsOf(rows[1..])
  {
    if rows == [] then [] else [Step(rows[0], true)] + StepsOf(rows[1..])
  }

  lemma {:induction false} ThreadedIsFold<R, A, T>(agg: Aggregate<R, A, T>, a: A, rows: seq<R>)
    ensures ThreadedAll(agg, Some(a), StepsOf(rows), true) == Some(Fold(agg.step, a, rows))
    decreases |rows|
  {
    if rows != [] {
      ThreadedIsFold(agg, agg.step(a, rows[0]).0, rows[1..]);
      FoldHead(agg.step, a, rows);
    }
  }

  lemma {:induction false} FoldHead<R, A>(step: (A, R) -> (A, bool), a: A, rows: seq<R>)
    requires rows != []
    ensures Fold(step, a, rows) == Fold(step, step(a, rows[0]).0, rows[1..])
    decreases |rows|
  {
    var n := |rows| - 1;
    if n > 0 {
      FoldHead(step, a, rows[..n]);
      assert rows[..n][1..] == rows[1..][..n - 1];
    } else {
      assert rows[..0] == [] && rows[1..] == [];
    }
  }

  /** What a step and an inverse report: no memory, a failure, or nothing amiss. */
  lemma CallReports<R, A, T>(agg: Aggregate<R, A, T>, g: Group<A>, row: R, memOk: bool)
    requires Owned(g)
    ensures var start := if Boxed(g).Some? then Boxed(g) else agg.init(row);
      CallStep(agg, g, row, memOk).1
      == if !g.memory && !memOk then NoMem
         else if start.Some? && agg.step(start.value, row).1 then Fine else Failed
    ensures CallInverse(agg, g, row, memOk).1
         == if !g.memory && !memOk then NoMem
            else if Boxed(g).Some? && agg.inverse(Boxed(g).value, row).1 then Fine else Failed
  {
  }

  // ---- Windows -------------------------------------------------------------------

  /** The frame of a window moves by taking a row in at the end, or its oldest row out. */
  datatype Move<+R> = Push(row: R) | Pop | Look

  function FrameAfter<R>(frame: seq<R>, move: Move<R>): seq<R>
    requires move.Pop? ==> frame != []
  {
    match move
    case Push(row) => frame + [row]
    case Pop => frame[1..]
    case Look => frame
  }

  predicate FrameLegal<R>(frame: seq<R>, moves: seq<Move<R>>)
    decreases |moves|
  {
    moves != [] ==>
      (moves[0].Pop? ==> frame != []) && FrameLegal(FrameAfter(frame, moves[0]), moves[1..])
  }

  /** One move of the frame: the group afterwards and whether the callback reported success. */
  function OneMove<R, A, T>(agg: Aggregate<R, A, T>, g: Group<A>, frame: seq<R>, move: Move<R>): (Group<A>, bool)
    requires move.Pop? ==> frame != []
  {
    match move
    case Push(row) =>
      var (g1, r) := CallStep(agg, g, row, true);
      (g1, r == Fine)
    case Pop =>
      var (g1, r) := CallInverse(agg, g, frame[0], true);
      (g1, r == Fine)
    case Look => (CallValue(agg, g).0, true)
  }

  /** The group, the frame and whether every callback reported success, after the moves. */
  function Slide<R, A, T>(agg: Aggregate<R, A, T>, g: Group<A>, frame: seq<R>, moves: seq<Move<R>>)
    : (Group<A>, seq<R>, bool)
    requires FrameLegal(frame, moves)
    decreases |moves|
  {
    if moves == [] then (g, frame, true)
    else
      var (g1, fine) := OneMove(agg, g, frame, moves[0]);
      var (g2, f2, good) := Slide(agg, g1, FrameAfter(frame, moves[0]), moves[1..]);
      (g2, f2, fine && good)
  }

  /** What the first row pushed makes of a group that has not been stepped. */
  function StartFor<R, A, T>(agg: Aggregate<R, A, T>, start: Option<A>, moves: seq<Move<R>>): Option<A>
    decreases |moves|
  {
    if moves == [] then start else StartFor(agg, StartAfter(agg, start, moves[0]), moves[1..])
  }

  function StartAfter<R, A, T>(agg: Aggregate<R, A, T>, start: Option<A>, move: Move<R>): Option<A> {
    if start.None? && move.Push? then agg.init(move.row) else start
  }

  lemma {:induction false} StartStays<R, A, T>(agg: Aggregate<R, A, T>, start: Option<A>, moves: seq<Move<R>>)
    requires start.Some?
    ensures StartFor(agg, start, moves) == start
    decreases |moves|
  {
    if moves != [] {
      StartStays(agg, start, moves[1..]);
    }
  }

  /**
   * Every callback that succeeds keeps `p` between the accumulator and the rows
   * in the frame, and what `value` leaves behind keeps it too.
   */
  ghost predicate Tracks<R(!new), A(!new), T>(agg: Aggregate<R, A, T>, p: (A, seq<R>) -> bool) {
    && (forall a, rows, row | p(a, rows) && agg.step(a, row).1 :: p(agg.step(a, row).0, rows + [row]))
    && (forall a, rows, row | p(a, [row] + rows) && agg.inverse(a, row).1 :: p(agg.inverse(a, row).0, rows))
    && (forall a, rows | p(a, rows) :: p(agg.peek(a), rows))
  }

  /** The group is in order: not stepped yet over no rows, or with an accumulator that `p` ties to the frame. */
  ghost predicate Holds<R, A>(g: Group<A>, p: (A, seq<R>) -> bool, frame: seq<R>, started: bool) {
    && !g.fault
    && if started then g.memory && g.slot != 0 && g.slot in g.boxes && p(g.boxes[g.slot], frame)
       else g.slot == 0 && frame == []
  }

  lemma PushHolds<R(!new), A(!new), T>(
    agg: Aggregate<R, A, T>, p: (A, seq<R>) -> bool, g: Group<A>, frame: seq<R>, started: bool, row: R)
    requires Tracks(agg, p) && Holds(g, p, frame, started)
    requires !started && agg.init(row).Some? ==> p(agg.init(row).value, [])
    requires CallStep(agg, g, row, true).1 == Fine
    ensures Holds(CallStep(agg, g, row, true).0, p, frame + [row], true)
    ensures !started ==> agg.init(row).Some?
  {
    var a := if started then g.boxes[g.slot] else agg.init(row).value;
    assert p(a, frame) && agg.step(a, row).1;
  }

  lemma PopHolds<R(!new), A(!new), T>(
    agg: Aggregate<R, A, T>, p: (A, seq<R>) -> bool, g: Group<A>, frame: seq<R>, started: bool)
    requires Tracks(agg, p) && Holds(g, p, frame, started) && frame != []
    requires CallInverse(agg, g, frame[0], true).1 == Fine
    ensures Holds(CallInverse(agg, g, frame[0], true).0, p, frame[1..], started)
  {
    assert frame == [frame[0]] + frame[1..];
    assert p(g.boxes[g.slot], [frame[0]] + frame[1..]);
  }

  lemma MoveHolds<R(!new), A(!new), T>(
    agg: Aggregate<R, A, T>, p: (A, seq<R>) -> bool, g: Group<A>, frame: seq<R>, move: Move<R>, start: Option<A>)
    requires Tracks(agg, p) && Holds(g, p, frame, start.Some?)
    requires move.Pop? ==> frame != []
    requires start.None? && move.Push? && agg.init(move.row).Some? ==> p(agg.init(move.row).value, [])
    requires OneMove(agg, g, frame, move).1
    ensures Holds(OneMove(agg, g, frame, move).0, p, FrameAfter(frame, move), StartAfter(agg, start, move).Some?)
  {
    match move
    case Push(row) => PushHolds(agg, p, g, frame, start.Some?, row);
    case Pop => PopHolds(agg, p, g, frame, start.Some?);
    case Look =>
  }

  lemma {:induction false} SlideHolds<R(!new), A(!new), T>(
    agg: Aggregate<R, A, T>, p: (A, seq<R>) -> bool, g: Group<A>, frame: seq<R>, moves: seq<Move<R>>, start: Option<A>)
    requires FrameLegal(frame, moves) && Slide(agg, g, frame, moves).2
    requires Tracks(agg, p) && Holds(g, p, frame, start.Some?)
    requires var s := StartFor(agg, start, moves); s.Some? ==> p(s.value, [])
    ensures var (g', frame', _) := Slide(agg, g, frame, moves);
      Holds(g', p, frame', StartFor(agg, start, moves).Some?)
    decreases |moves|
  {
    if moves != [] {
      var s := StartAfter(agg, start, moves[0]);
      if s.Some? {
        StartStays(agg, s, moves[1..]);
      }
      MoveHolds(agg, p, g, frame, moves[0], start);
      SlideHolds(agg, p, OneMove(agg, g, frame, moves[0]).0, FrameAfter(frame, moves[0]), moves[1..], s);
    }
  }

  /**
   * After any moves of the frame, while the callbacks succeed, the value reported
   * is that of an accumulator tied to just the rows in the frame; a group never
   * stepped reports the value of nothing.
   */
  lemma WindowTracksTheFrame<R(!new), A(!new), T>(
    agg: Aggregate<R, A, T>, p: (A, seq<R>) -> bool, moves: seq<Move<R>>)
    returns (acc: Option<A>)
    requires FrameLegal([], moves) && Slide(agg, NewGroup(), [], moves).2
    requires Tracks(agg, p)
    requires var s := StartFor(agg, None, moves); s.Some? ==> p(s.value, [])
    ensures var (g, frame, _) := Slide(agg, NewGroup(), [], moves);
      && CallValue(agg, g).1 == Answer(agg.value(acc))
      && (acc.Some? <==> StartFor(agg, None, moves).Some?)
      && (if acc.Some? then p(acc.value, frame) else frame == [])
  {
    SlideHolds(agg, p, NewGroup(), [], moves, None);
    var g := Slide(agg, NewGroup(), [], moves).0;
    acc := if StartFor(agg, None, moves).Some? then Some(g.boxes[g.slot]) else None;
  }

  // ---- The fold of a frame ---------------------------------------------------------

  function Fold<R, A>(step: (A, R) -> (A, bool), acc: A, rows: seq<R>): A {
    if rows == [] then acc else step(Fold(step, acc, rows[..|rows| - 1]), rows[|rows| - 1]).0
  }

  /** Taking the oldest row back, when it succeeds, leaves the fold of the others. */
  ghost predicate Cancels<R(!new), A, T>(agg: Aggregate<R, A, T>, start: A) {
    forall row: R, rows: seq<R> ::
      var (acc, ok) := agg.inverse(Fold(agg.step, start, [row] + rows), row);
      ok ==> acc == Fold(agg.step, start, rows)
  }

  lemma FoldTracks<R(!new), A(!new), T>(agg: Aggregate<R, A, T>, start: A)
    requires Cancels(agg, start)
    requires forall rows: seq<R> :: agg.peek(Fold(agg.step, start, rows)) == Fold(agg.step, start, rows)
    ensures Tracks(agg, (a: A, rows: seq<R>) => a == Fold(agg.step, start, rows))
  {
    forall rows: seq<R>, row: R
      ensures Fold(agg.step, start, rows + [row]) == agg.step(Fold(agg.step, start, rows), row).0
    {
      assert (rows + [row])[..|rows|] == rows;
    }
  }

  /**
   * When `inverse` cancels `step` on the oldest row and `value` only looks, the
   * value reported is that of the fold of `step` over just the frame's rows, from
   * the first row's `init`: of the untouched start for a frame that was emptied.
   */
  lemma WindowValueIsTheFold<R(!new), A(!new), T>(agg: Aggregate<R, A, T>, moves: seq<Move<R>>)
    requires FrameLegal([], moves) && Slide(agg, NewGroup(), [], moves).2
    requires var s := StartFor(agg, None, moves);
      s.Some? ==>
        && Cancels(agg, s.value)
        && forall rows: seq<R> :: agg.peek(Fold(agg.step, s.value, rows)) == Fold(agg.step, s.value, rows)
    ensures var (g, frame, _) := Slide(agg, NewGroup(), [], moves);
      CallValue(agg, g).1
      == Answer(agg.value(match StartFor(agg, None, moves)
                          case None => None
                          case Some(a) => Some(Fold(agg.step, a, frame))))
      && (StartFor(agg, None, moves).None? ==> frame == [])
  {
    match StartFor(agg, None, moves)
    case None => NeverStepped(agg, NewGroup(), moves);
    case Some(a) =>
      FoldTracks(agg, a);
      var acc := WindowTracksTheFrame(agg, (a': A, rows: seq<R>) => a' == Fold(agg.step, a, rows), moves);
  }

  lemma {:induction false} NeverStepped<R, A, T>(agg: Aggregate<R, A, T>, g: Group<A>, moves: seq<Move<R>>)
    requires FrameLegal([], moves) && Slide(agg, g, [], moves).2
    requires StartFor(agg, None, moves).None? && g.slot == 0
    ensures var (g', frame, _) := Slide(agg, g, [], moves);
      g'.slot == 0 && frame == []
    decreases |moves|
  {
    if moves != [] {
      var s := StartAfter(agg, None, moves[0]);
      if s.Some? {
        StartStays(agg, s, moves[1..]);
      }
      NeverStepped(agg, OneMove(agg, g, [], moves[0]).0, moves[1..]);
    }
  }

  // ---- The sum aggregate ---------------------------------------------------------

  const TWO_TO_63 := 0x8000_0000_0000_0000

  predicate Fits(x: int) {
    -TWO_TO_63 <= x < TWO_TO_63
  }

  /** Two's complement in 64 bits. */
  function Wrap(x: int): int {
    (x + TWO_TO_63) % (2 * TWO_TO_63) - TWO_TO_63
  }

  /** Adding in 64 bits: past the end it wraps round, or panics where overflow is checked. */
  function Plus(wraps: bool, acc: int, x: int): (int, bool) {
    if Fits(acc + x) then (acc + x, true) else if wraps then (Wrap(acc + x), true) else (acc, false)
  }

  /** A row's argument, if it reads as an integer; reading anything else is an error. */
  function SumAggregate(wraps: bool): Aggregate<Option<int>, int, Option<int>> {
    Aggregate(
      (_: Option<int>) => Some(0),
      (acc: int, row: Option<int>) => if row.None? then (acc, false) else Plus(wraps, acc, row.value),
      (acc: int, row: Option<int>) => if row.None? then (acc, false) else Plus(wraps, acc, -row.value),
      (acc: Option<int>) => acc,
      (acc: int) => acc,
      (acc: Option<int>) => acc)
  }

  function Total(rows: seq<Option<int>>): int {
    if rows == [] then 0
    else Total(rows[..|rows| - 1]) + match rows[|rows| - 1] case Some(x) => x case None => 0
  }

  lemma TotalLast(rows: seq<Option<int>>, x: int)
    ensures Total(rows + [Some(x)]) == Total(rows) + x
  {
    assert (rows + [Some(x)])[..|rows|] == rows;
  }

  lemma {:induction false} TotalHead(x: int, rows: seq<Option<int>>)
    ensures Total([Some(x)] + rows) == x + Total(rows)
  {
    var all := [Some(x)] + rows;
    if rows != [] {
      TotalHead(x, rows[..|rows| - 1]);
      assert all[..|all| - 1] == [Some(x)] + rows[..|rows| - 1];
    }
  }

  /** The sum of the frame, modulo 2^64 where overflow wraps and exactly where it is checked. */
  predicate IsSum(wraps: bool, acc: int, rows: seq<Option<int>>) {
    acc == if wraps then Wrap(Total(rows)) else Total(rows)
  }

  function SumRelation(wraps: bool): (int, seq<Option<int>>) -> bool {
    (acc: int, rows: seq<Option<int>>) => IsSum(wraps, acc, rows)
  }

  lemma WrapOnce(x: int, y: int)
    ensures Wrap(Wrap(x) + y) == Wrap(x + y)
    ensures Fits(x) ==> Wrap(x) == x
  {
  }

  /** In both modes a callback that succeeds keeps the sum. */
  lemma SumTracks(wraps: bool)
    ensures Tracks(SumAggregate(wraps), SumRelation(wraps))
  {
    forall acc: int, rows: seq<Option<int>>, row: Option<int> | IsSum(wraps, acc, rows) && SumAggregate(wraps).step(acc, row).1
      ensures IsSum(wraps, SumAggregate(wraps).step(acc, row).0, rows + [row])
    {
      TotalLast(rows, row.value);
      WrapOnce(Total(rows), row.value);
      WrapOnce(acc + row.value, 0);
    }
    forall acc: int, rows: seq<Option<int>>, row: Option<int>
      | IsSum(wraps, acc, [row] + rows) && SumAggregate(wraps).inverse(acc, row).1
      ensures IsSum(wraps, SumAggregate(wraps).inverse(acc, row).0, rows)
    {
      TotalHead(row.value, rows);
      WrapOnce(Total([row] + rows), -row.value);
      WrapOnce(acc - row.value, 0);
    }
  }

  /** A row pushed is an integer, and where overflow is checked the sum of the frame does not overflow. */
  predicate Acceptable(wraps: bool, frame: seq<Option<int>>, move: Move<Option<int>>)
    requires move.Pop? ==> frame != []
  {
    && (move.Push? ==> move.row.Some?)
    && (wraps || move.Look? || Fits(Total(FrameAfter(frame, move))))
  }

  predicate AllAcceptable(wraps: bool, frame: seq<Option<int>>, moves: seq<Move<Option<int>>>)
    requires FrameLegal(frame, moves)
    decreases |moves|
  {
    moves != [] ==> Acceptable(wraps, frame, moves[0]) && AllAcceptable(wraps, FrameAfter(frame, moves[0]), moves[1..])
  }

  lemma PlusSucceeds(wraps: bool, acc: int, rows: seq<Option<int>>, x: int)
    requires IsSum(wraps, acc, rows)
    ensures Plus(wraps, acc, x).1 <==> wraps || Fits(Total(rows) + x)
  {
  }

  lemma SumPushSucceeds(wraps: bool, g: Group<int>, frame: seq<Option<int>>, started: bool, row: Option<int>)
    requires Holds(g, SumRelation(wraps), frame, started)
    ensures CallStep(SumAggregate(wraps), g, row, true).1 == Fine
       <==> row.Some? && (wraps || Fits(Total(frame + [row])))
  {
    if row.Some? {
      var acc := if started then g.boxes[g.slot] else 0;
      assert CallStep(SumAggregate(wraps), g, row, true).1 == if Plus(wraps, acc, row.value).1 then Fine else Failed;
      assert IsSum(wraps, acc, frame) by {
        assert started ==> SumRelation(wraps)(acc, frame);
      }
      PlusSucceeds(wraps, acc, frame, row.value);
      TotalLast(frame, row.value);
    }
  }

  lemma SumPopSucceeds(wraps: bool, g: Group<int>, frame: seq<Option<int>>, started: bool)
    requires Holds(g, SumRelation(wraps), frame, started) && frame != [] && frame[0].Some?
    ensures CallInverse(SumAggregate(wraps), g, frame[0], true).1 == Fine <==> wraps || Fits(Total(frame[1..]))
  {
    assert frame == [Some(frame[0].value)] + frame[1..];
    TotalHead(frame[0].value, frame[1..]);
  }

  lemma SumMoveSucceeds(wraps: bool, g: Group<int>, frame: seq<Option<int>>, move: Move<Option<int>>, started: bool)
    requires Holds(g, SumRelation(wraps), frame, started)
    requires move.Pop? ==> frame != [] && frame[0].Some?
    ensures OneMove(SumAggregate(wraps), g, frame, move).1 <==> Acceptable(wraps, frame, move)
  {
    match move
    case Push(row) => SumPushSucceeds(wraps, g, frame, started, row);
    case Pop => SumPopSucceeds(wraps, g, frame, started);
    case Look =>
  }

  lemma {:induction false} SumSucceedsExactly(
    wraps: bool, g: Group<int>, frame: seq<Option<int>>, moves: seq<Move<Option<int>>>, start: Option<int>)
    requires FrameLegal(frame, moves)
    requires Holds(g, SumRelation(wraps), frame, start.Some?)
    requires forall i | 0 <= i < |frame| :: frame[i].Some?
    ensures Slide(SumAggregate(wraps), g, frame, moves).2 <==> AllAcceptable(wraps, frame, moves)
    decreases |moves|
  {
    if moves != [] {
      var agg, move := SumAggregate(wraps), moves[0];
      SumMoveSucceeds(wraps, g, frame, move, start.Some?);
      if Acceptable(wraps, frame, move) {
        SumTracks(wraps);
        assert SumRelation(wraps)(0, []);
        MoveHolds(agg, SumRelation(wraps), g, frame, move, start);
        SumSucceedsExactly(wraps, OneMove(agg, g, frame, move).0, FrameAfter(frame, move), moves[1..],
                           StartAfter(agg, start, move));
      }
    }
  }

  lemma {:induction false} PushStarts(wraps: bool, moves: seq<Move<Option<int>>>)
    ensures StartFor(SumAggregate(wraps), None, moves)
         == if exists i | 0 <= i < |moves| :: moves[i].Push? then Some(0) else None
    decreases |moves|
  {
    if moves != [] {
      if moves[0].Push? {
        StartStays(SumAggregate(wraps), Some(0), moves[1..]);
      } else {
        PushStarts(wraps, moves[1..]);
        if i :| 0 <= i < |moves| && moves[i].Push? {
          assert moves[1..][i - 1].Push?;
        }
      }
    }
  }

  lemma SumReported(wraps: bool, moves: seq<Move<Option<int>>>) returns (acc: Option<int>)
    requires FrameLegal([], moves) && Slide(SumAggregate(wraps), NewGroup(), [], moves).2
    ensures var (g, frame, _) := Slide(SumAggregate(wraps), NewGroup(), [], moves);
      && CallValue(SumAggregate(wraps), g).1 == Answer(acc)
      && (acc.Some? <==> exists i | 0 <= i < |moves| :: moves[i].Push?)
      && (acc.Some? ==> IsSum(wraps, acc.value, frame))
  {
    SumTracks(wraps);
    PushStarts(wraps, moves);
    assert SumRelation(wraps)(0, []);
    acc := WindowTracksTheFrame(SumAggregate(wraps), SumRelation(wraps), moves);
    assert SumAggregate(wraps).value(acc) == acc;
  }

  /**
   * A window sum goes on without error exactly while its rows are integers and,
   * where overflow is checked, the sums of its frames fit in 64 bits; it is then
   * the sum of the frame, and NULL only if no row was ever pushed.
   */
  lemma WindowSum(wraps: bool, moves: seq<Move<Option<int>>>)
    requires FrameLegal([], moves)
    ensures var (g, frame, good) := Slide(SumAggregate(wraps), NewGroup(), [], moves);
      && (good <==> AllAcceptable(wraps, [], moves))
      && (good ==>
            CallValue(SumAggregate(wraps), g).1
            == Answer(if exists i | 0 <= i < |moves| :: moves[i].Push?
                      then Some(if wraps then Wrap(Total(frame)) else Total(frame)) else None))
  {
    SumSucceedsExactly(wraps, NewGroup(), [], moves, None);
    if AllAcceptable(wraps, [], moves) {
      var acc := SumReported(wraps, moves);
    }
  }
}
