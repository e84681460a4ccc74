// Waiting for a shared-cache lock: any number of waiters, any number of
// callback threads, every interleaving, spurious wakeups included.
//
// A waiter keeps its notification object on its own stack and hands its address
// to SQLite. A mutex step is atomic: releasing it is the last access.
module UnlockNotify {
  /** Where a waiter stands in `wait_for_unlock_notify`. */
  datatype Phase =
    | Registering  // object built, sqlite3_unlock_notify not yet answered
    | Refused      // answered with an error: returned without waiting, object gone
    | Ready        // registered, about to take the mutex
    | Checking     // holds the mutex, about to test the flag
    | Sleeping     // inside the condition wait, mutex released
    | Woken        // notified or woken for no reason, must take the mutex again
    | Leaving      // saw the flag set, still holds the mutex
    | Returning    // released the mutex, object still on the stack
    | Gone         // returned SQLITE_OK, object gone

  datatype Owner = Free | Waiter | Callback(k: nat)

  datatype Note = Note(phase: Phase, flag: bool, mutex: Owner)

  /** Where a callback thread stands in `fired` for the first of its arguments. */
  datatype Pc = Idle | Locked | FlagSet | Notified

  datatype Cb = Cb(args: seq<nat>, pc: Pc)

  /** `pending` are the registered waiters SQLite has not called back; `fault` records a touch of a dead object. */
  datatype State = State(notes: map<nat, Note>, pending: set<nat>, cbs: map<nat, Cb>, fault: bool)

  datatype Step =
    | Build(w: nat)
    | Register(w: nat, ok: bool)
    | Lock(w: nat)
    | Test(w: nat)
    | WakeSpuriously(w: nat)
    | Relock(w: nat)
    | Unlock(w: nat)
    | Leave(w: nat)
    | Deliver(k: nat, ws: seq<nat>)
    | CbLock(k: nat)
    | CbSet(k: nat)
    | CbNotify(k: nat)
    | CbUnlock(k: nat)

  predicate Has(s: State, w: nat, p: Phase) {
    w in s.notes && s.notes[w].phase == p
  }

  predicate At(s: State, k: nat, pc: Pc) {
    k in s.cbs && s.cbs[k].args != [] && s.cbs[k].pc == pc
  }

  predicate IsFree(s: State, w: nat) {
    w in s.notes ==> s.notes[w].mutex == Free
  }

  predicate Enabled(s: State, step: Step) {
    match step
    case Build(w) => w !in s.notes
    case Register(w, _) => Has(s, w, Registering)
    case Lock(w) => Has(s, w, Ready) && IsFree(s, w)
    case Test(w) => Has(s, w, Checking)
    case WakeSpuriously(w) => Has(s, w, Sleeping)
    case Relock(w) => Has(s, w, Woken) && IsFree(s, w)
    case Unlock(w) => Has(s, w, Leaving)
    case Leave(w) => Has(s, w, Returning)
    case Deliver(k, ws) =>
      k !in s.cbs && (forall i | 0 <= i < |ws| :: ws[i] in s.pending) && (forall i, j | 0 <= i < j < |ws| :: ws[i] != ws[j])
    case CbLock(k) => At(s, k, Idle) && IsFree(s, s.cbs[k].args[0])
    case CbSet(k) => At(s, k, Locked)
    case CbNotify(k) => At(s, k, FlagSet)
    case CbUnlock(k) => At(s, k, Notified)
  }

  function SetNote(s: State, w: nat, n: Note): State {
    s.(notes := s.notes[w := n])
  }

  /** The object a callback thread's first argument points to, as far as there is one. */
  function Target(s: State, k: nat): Note
    requires k in s.cbs && s.cbs[k].args != []
  {
    var w := s.cbs[k].args[0];
    if w in s.notes then s.notes[w] else Note(Gone, false, Free)
  }

  /** A callback thread's write to its first argument; touching a dead object is a fault. */
  function Touch(s: State, k: nat, n: Note, c: Cb): State
    requires k in s.cbs && s.cbs[k].args != []
  {
    var s1 := s.(cbs := s.cbs[k := c]);
    var phase := Target(s, k).phase;
    if phase != Gone && phase != Refused then SetNote(s1, s.cbs[k].args[0], n) else s1.(fault := true)
  }

  function Next(s: State, step: Step): State
    requires Enabled(s, step)
  {
    match step
    case Build(w) => SetNote(s, w, Note(Registering, false, Free))
    case Register(w, ok) =>
      if ok then SetNote(s, w, s.notes[w].(phase := Ready)).(pending := s.pending + {w})
      else SetNote(s, w, s.notes[w].(phase := Refused))
    case Lock(w) => SetNote(s, w, s.notes[w].(phase := Checking, mutex := Waiter))
    case Test(w) =>
      SetNote(s, w, if s.notes[w].flag then s.notes[w].(phase := Leaving)
                    else s.notes[w].(phase := Sleeping, mutex := Free))
    case WakeSpuriously(w) => SetNote(s, w, s.notes[w].(phase := Woken))
    case Relock(w) => SetNote(s, w, s.notes[w].(phase := Checking, mutex := Waiter))
    case Unlock(w) => SetNote(s, w, s.notes[w].(phase := Returning, mutex := Free))
    case Leave(w) => SetNote(s, w, s.notes[w].(phase := Gone))
    case Deliver(k, ws) =>
      s.(pending := s.pending - (set i | 0 <= i < |ws| :: ws[i]), cbs := s.cbs[k := Cb(ws, Idle)])
    case CbLock(k) => Touch(s, k, Target(s, k).(mutex := Callback(k)), s.cbs[k].(pc := Locked))
    case CbSet(k) => Touch(s, k, Target(s, k).(flag := true), s.cbs[k].(pc := FlagSet))
    case CbNotify(k) =>
      var n := Target(s, k);
      Touch(s, k, if n.phase == Sleeping then n.(phase := Woken) else n, s.cbs[k].(pc := Notified))
    case CbUnlock(k) => Touch(s, k, Target(s, k).(mutex := Free), Cb(s.cbs[k].args[1..], Idle))
  }

  // ---- The invariant ----------------------------------------------------

  predicate Waiting(p: Phase) {
    p == Ready || p == Checking || p == Sleeping || p == Woken
  }

  ghost predicate Owed(s: State, w: nat) {
    w in s.pending || exists k | k in s.cbs :: w in s.cbs[k].args
  }

  ghost predicate NoteOk(s: State, w: nat, n: Note) {
    && (n.phase == Registering || n.phase == Refused ==> !n.flag && n.mutex == Free && !Owed(s, w))
    && (n.mutex == Waiter <==> n.phase == Checking || n.phase == Leaving)
    && (n.mutex.Callback? ==> n.mutex.k in s.cbs && s.cbs[n.mutex.k].args != []
                              && s.cbs[n.mutex.k].args[0] == w && s.cbs[n.mutex.k].pc != Idle)
    && (n.phase == Leaving || n.phase == Returning || n.phase == Gone ==> n.flag)
    && (n.flag && !n.mutex.Callback? ==> n.phase != Sleeping)
    && (Waiting(n.phase) && !n.flag ==> Owed(s, w))
  }

  ghost predicate CbOk(s: State, k: nat, c: Cb) {
    && (c.args == [] ==> c.pc == Idle)
    && (forall i, j | 0 <= i < j < |c.args| :: c.args[i] != c.args[j])
    && (forall i | 0 <= i < |c.args| ::
          && c.args[i] in s.notes && c.args[i] !in s.pending && Waiting(s.notes[c.args[i]].phase)
          && (s.notes[c.args[i]].mutex == Callback(k) <==> i == 0 && c.pc != Idle)
          && (s.notes[c.args[i]].flag <==> i == 0 && (c.pc == FlagSet || c.pc == Notified)))
    && (c.pc == Notified ==> s.notes[c.args[0]].phase != Sleeping)
  }

  ghost predicate Inv(s: State) {
    && !s.fault
    && (forall w | w in s.pending :: w in s.notes && Waiting(s.notes[w].phase) && !s.notes[w].flag)
    && (forall w | w in s.notes :: NoteOk(s, w, s.notes[w]))
    && (forall k | k in s.cbs :: CbOk(s, k, s.cbs[k]))
    && Disjoint(s.cbs)
  }

  /** No two callback threads owe one waiter. */
  ghost predicate Disjoint(cbs: map<nat, Cb>) {
    forall k, k', w | k in cbs && k' in cbs && k != k' && w in cbs[k].args :: w !in cbs[k'].args
  }

  lemma FewerArgsDisjoint(cbs: map<nat, Cb>, k: nat, c: Cb)
    requires Disjoint(cbs) && k in cbs && forall w | w in c.args :: w in cbs[k].args
    ensures Disjoint(cbs[k := c])
  {
  }

  /** A waiter that changes nothing but its own phase and mutex, and keeps its note in order. */
  lemma OwnChangeKeeps(s: State, w: nat, n: Note)
    requires Inv(s) && w in s.notes && NoteOk(s, w, n)
    requires n.flag == s.notes[w].flag
    requires n.mutex == s.notes[w].mutex || (!n.mutex.Callback? && !s.notes[w].mutex.Callback?)
    requires Waiting(s.notes[w].phase) && Owed(s, w) ==> Waiting(n.phase)
    requires n.mutex.Callback? && n.phase == Sleeping ==> s.notes[w].phase == Sleeping
    ensures Inv(SetNote(s, w, n))
  {
    var s' := SetNote(s, w, n);
    SameOwed(s, s');
    forall x | x in s'.notes
      ensures NoteOk(s', x, s'.notes[x])
    {
      assert x != w ==> NoteOk(s, x, s.notes[x]);
    }
    forall k | k in s'.cbs
      ensures CbOk(s', k, s'.cbs[k])
    {
      OwnChangeCb(s, w, n, k);
    }
  }

  lemma OwnChangeCb(s: State, w: nat, n: Note, k: nat)
    requires Inv(s) && w in s.notes && NoteOk(s, w, n) && k in s.cbs
    requires n.flag == s.notes[w].flag
    requires n.mutex == s.notes[w].mutex || (!n.mutex.Callback? && !s.notes[w].mutex.Callback?)
    requires Waiting(s.notes[w].phase) && Owed(s, w) ==> Waiting(n.phase)
    requires n.mutex.Callback? && n.phase == Sleeping ==> s.notes[w].phase == Sleeping
    ensures CbOk(SetNote(s, w, n), k, s.cbs[k])
  {
    assert CbOk(s, k, s.cbs[k]) && NoteOk(s, w, s.notes[w]);
    if w in s.cbs[k].args {
      assert Owed(s, w);
    }
  }

  lemma NewWaiterIsNotOwed(s: State, w: nat)
    requires Inv(s) && (w in s.notes ==> s.notes[w].phase == Registering)
    ensures !Owed(s, w)
  {
    assert forall k | k in s.cbs :: CbOk(s, k, s.cbs[k]);
  }

  lemma BuildKeeps(s: State, w: nat)
    requires Inv(s) && Enabled(s, Build(w))
    ensures Inv(Next(s, Build(w)))
  {
    var s' := Next(s, Build(w));
    NewWaiterIsNotOwed(s, w);
    SameOwed(s, s');
    forall k | k in s'.cbs
      ensures CbOk(s', k, s'.cbs[k])
    {
      assert CbOk(s, k, s.cbs[k]);
    }
  }

  lemma RegisterKeeps(s: State, w: nat, ok: bool)
    requires Inv(s) && Enabled(s, Register(w, ok))
    ensures Inv(Next(s, Register(w, ok)))
  {
    var s' := Next(s, Register(w, ok));
    NewWaiterIsNotOwed(s, w);
    assert NoteOk(s, w, s.notes[w]);
    assert forall x | x != w :: Owed(s', x) <==> Owed(s, x);
    forall k | k in s'.cbs
      ensures CbOk(s', k, s'.cbs[k])
    {
      assert CbOk(s, k, s.cbs[k]) && w !in s.cbs[k].args;
    }
    forall x | x in s'.notes
      ensures NoteOk(s', x, s'.notes[x])
    {
      assert x != w ==> NoteOk(s, x, s.notes[x]);
    }
  }

  lemma WaiterStepKeeps(s: State, step: Step)
    requires Inv(s) && Enabled(s, step)
    requires step.Lock? || step.Test? || step.WakeSpuriously? || step.Relock? || step.Unlock? || step.Leave?
    ensures Inv(Next(s, step))
  {
    var w := step.w;
    assert NoteOk(s, w, s.notes[w]);
    HeldByCallback(s, w);
    OwedIsWaiting(s, w);
    OwnChangeKeeps(s, w, Next(s, step).notes[w]);
  }

  /** A callback that holds a waiter's mutex is still working on that waiter. */
  lemma HeldByCallback(s: State, w: nat)
    requires Inv(s) && w in s.notes
    ensures var m := s.notes[w].mutex;
      m.Callback? ==> Owed(s, w) && m.k in s.cbs && w in s.cbs[m.k].args && s.cbs[m.k].pc != Idle
  {
    var m := s.notes[w].mutex;
    if m.Callback? {
      assert s.cbs[m.k].args[0] == w;
    }
  }

  lemma OwedIsWaiting(s: State, w: nat)
    requires Inv(s) && w in s.notes
    ensures Owed(s, w) ==> Waiting(s.notes[w].phase)
    ensures Owed(s, w) && s.notes[w].flag ==> s.notes[w].mutex.Callback?
  {
    assert forall k | k in s.cbs :: CbOk(s, k, s.cbs[k]);
  }

  lemma DeliverOwed(s: State, k: nat, ws: seq<nat>, x: nat)
    requires Enabled(s, Deliver(k, ws))
    ensures Owed(Next(s, Deliver(k, ws)), x) <==> Owed(s, x)
  {
    var s' := Next(s, Deliver(k, ws));
    if x in ws {
      assert x in s'.cbs[k].args;
    } else if k' :| k' in s.cbs && x in s.cbs[k'].args {
      assert k' in s'.cbs && x in s'.cbs[k'].args;
    }
  }

  lemma DeliverKeeps(s: State, k: nat, ws: seq<nat>)
    requires Inv(s) && Enabled(s, Deliver(k, ws))
    ensures Inv(Next(s, Deliver(k, ws)))
  {
    var s' := Next(s, Deliver(k, ws));
    forall x | x in s'.notes
      ensures NoteOk(s', x, s'.notes[x])
    {
      DeliverOwed(s, k, ws, x);
      assert NoteOk(s, x, s.notes[x]);
    }
    forall k' | k' in s'.cbs
      ensures CbOk(s', k', s'.cbs[k'])
    {
      DeliverCb(s, k, ws, k');
    }
  }

  lemma DeliverCb(s: State, k: nat, ws: seq<nat>, k': nat)
    requires Inv(s) && Enabled(s, Deliver(k, ws)) && (k' == k || k' in s.cbs)
    ensures CbOk(Next(s, Deliver(k, ws)), k', Next(s, Deliver(k, ws)).cbs[k'])
  {
    if k' != k {
      assert CbOk(s, k', s.cbs[k']);
    } else {
      assert forall w | w in s.pending :: NoteOk(s, w, s.notes[w]);
    }
  }

  function CbChange(s: State, k: nat, n: Note, pc: Pc): State
    requires k in s.cbs && s.cbs[k].args != []
  {
    SetNote(s, s.cbs[k].args[0], n).(cbs := s.cbs[k := s.cbs[k].(pc := pc)])
  }

  ghost predicate CbChangeOk(s: State, k: nat, n: Note, pc: Pc) {
    && k in s.cbs && s.cbs[k].args != [] && pc != Idle
    && n.mutex == Callback(k) && Waiting(n.phase) && n.phase != Checking
    && (n.flag <==> pc == FlagSet || pc == Notified)
    && (pc == Notified ==> n.phase != Sleeping)
  }

  lemma CbChangeOther(s: State, k: nat, n: Note, pc: Pc, k': nat)
    requires Inv(s) && CbChangeOk(s, k, n, pc) && k' in s.cbs
    ensures CbOk(CbChange(s, k, n, pc), k', CbChange(s, k, n, pc).cbs[k'])
  {
    var w := s.cbs[k].args[0];
    assert CbOk(s, k', s.cbs[k']) && CbOk(s, k, s.cbs[k]) && w in s.cbs[k].args;
    assert k' != k ==> w !in s.cbs[k'].args;
    if k' != k {
      assert forall i | 0 <= i < |s.cbs[k'].args| :: s.cbs[k'].args[i] != w;
    }
  }

  lemma CbChangeNote(s: State, k: nat, n: Note, pc: Pc, x: nat)
    requires Inv(s) && CbChangeOk(s, k, n, pc) && x in CbChange(s, k, n, pc).notes
    ensures NoteOk(CbChange(s, k, n, pc), x, CbChange(s, k, n, pc).notes[x])
  {
    var w, s' := s.cbs[k].args[0], CbChange(s, k, n, pc);
    SameOwed(s, s');
    if x == w {
      assert w in s.cbs[k].args && Owed(s, w);
    } else {
      var m := s.notes[x].mutex;
      assert NoteOk(s, x, s.notes[x]);
      assert m.Callback? ==> m.k != k && s'.cbs[m.k] == s.cbs[m.k];
    }
  }

  /** A callback that changes only its first argument's note and its own program counter. */
  lemma CbChangeKeeps(s: State, k: nat, n: Note, pc: Pc)
    requires Inv(s) && CbChangeOk(s, k, n, pc)
    ensures Inv(CbChange(s, k, n, pc))
  {
    var s' := CbChange(s, k, n, pc);
    assert CbOk(s, k, s.cbs[k]);
    FewerArgsDisjoint(s.cbs, k, s'.cbs[k]);
    forall x | x in s'.notes
      ensures NoteOk(s', x, s'.notes[x])
    {
      CbChangeNote(s, k, n, pc, x);
    }
    forall k' | k' in s'.cbs
      ensures CbOk(s', k', s'.cbs[k'])
    {
      CbChangeOther(s, k, n, pc, k');
    }
  }

  lemma SameOwed(s: State, s': State)
    requires s'.pending == s.pending && s'.cbs.Keys == s.cbs.Keys
    requires forall k | k in s.cbs :: s'.cbs[k].args == s.cbs[k].args
    ensures forall w :: Owed(s', w) <==> Owed(s, w)
  {
  }

  lemma CbStepIs(s: State, step: Step) returns (n: Note, pc: Pc)
    requires Inv(s) && Enabled(s, step) && (step.CbLock? || step.CbSet? || step.CbNotify?)
    ensures CbChangeOk(s, step.k, n, pc) && Next(s, step) == CbChange(s, step.k, n, pc)
  {
    var k := step.k;
    var w := s.cbs[k].args[0];
    assert CbOk(s, k, s.cbs[k]) && NoteOk(s, w, s.notes[w]);
    n, pc := Next(s, step).notes[w], Next(s, step).cbs[k].pc;
  }

  lemma CbStepKeeps(s: State, step: Step)
    requires Inv(s) && Enabled(s, step) && (step.CbLock? || step.CbSet? || step.CbNotify?)
    ensures Inv(Next(s, step))
  {
    var n, pc := CbStepIs(s, step);
    CbChangeKeeps(s, step.k, n, pc);
  }

  lemma CbUnlockIs(s: State, k: nat)
    requires Inv(s) && Enabled(s, CbUnlock(k))
    ensures var w := s.cbs[k].args[0];
      && w in s.notes && w !in s.pending && w in s.cbs[k].args
      && Next(s, CbUnlock(k)) == State(s.notes[w := s.notes[w].(mutex := Free)], s.pending,
                                       s.cbs[k := Cb(s.cbs[k].args[1..], Idle)], false)
  {
    assert CbOk(s, k, s.cbs[k]);
  }

  /** Done with its first argument, a callback thread owes only the rest of them. */
  lemma CbUnlockOwed(s: State, k: nat, x: nat)
    requires Inv(s) && Enabled(s, CbUnlock(k))
    ensures Owed(Next(s, CbUnlock(k)), x) <==> Owed(s, x) && x != s.cbs[k].args[0]
  {
    var s' := Next(s, CbUnlock(k));
    var w, rest := s.cbs[k].args[0], s.cbs[k].args[1..];
    assert CbOk(s, k, s.cbs[k]) && w in s.cbs[k].args;
    assert s.cbs[k].args == [w] + rest;
    if x != w && x !in s.pending && Owed(s, x) {
      var k' :| k' in s.cbs && x in s.cbs[k'].args;
      assert x in s'.cbs[k'].args;
    }
  }

  lemma CbUnlockNote(s: State, k: nat, x: nat)
    requires Inv(s) && Enabled(s, CbUnlock(k)) && x in Next(s, CbUnlock(k)).notes
    ensures NoteOk(Next(s, CbUnlock(k)), x, Next(s, CbUnlock(k)).notes[x])
  {
    var w := s.cbs[k].args[0];
    CbUnlockIs(s, k);
    CbUnlockOwed(s, k, x);
    assert CbOk(s, k, s.cbs[k]) && NoteOk(s, w, s.notes[w]) && w in s.cbs[k].args;
    assert x != w ==> NoteOk(s, x, s.notes[x]);
  }

  lemma CbUnlockOwnCb(s: State, k: nat)
    requires Inv(s) && Enabled(s, CbUnlock(k))
    ensures CbOk(Next(s, CbUnlock(k)), k, Next(s, CbUnlock(k)).cbs[k])
  {
    CbUnlockIs(s, k);
    var args := s.cbs[k].args;
    assert CbOk(s, k, s.cbs[k]);
    assert forall i | 1 <= i < |args| :: args[i] != args[0] && args[1..][i - 1] == args[i];
  }

  lemma CbUnlockOtherCb(s: State, k: nat, k': nat)
    requires Inv(s) && Enabled(s, CbUnlock(k)) && k' in s.cbs && k' != k
    ensures CbOk(Next(s, CbUnlock(k)), k', Next(s, CbUnlock(k)).cbs[k'])
  {
    var w := s.cbs[k].args[0];
    CbUnlockIs(s, k);
    assert CbOk(s, k', s.cbs[k']) && w !in s.cbs[k'].args;
    assert forall i | 0 <= i < |s.cbs[k'].args| :: s.cbs[k'].args[i] != w;
  }

  lemma CbUnlockKeeps(s: State, k: nat)
    requires Inv(s) && Enabled(s, CbUnlock(k))
    ensures Inv(Next(s, CbUnlock(k)))
  {
    var s' := Next(s, CbUnlock(k));
    CbUnlockIs(s, k);
    forall x | x in s'.notes
      ensures NoteOk(s', x, s'.notes[x])
    {
      CbUnlockNote(s, k, x);
    }
    forall k' | k' in s'.cbs
      ensures CbOk(s', k', s'.cbs[k'])
    {
      if k' == k {
        CbUnlockOwnCb(s, k);
      } else {
        CbUnlockOtherCb(s, k, k');
      }
    }
    FewerArgsDisjoint(s.cbs, k, s'.cbs[k]);
  }

  lemma StepKeeps(s: State, step: Step)
    requires Inv(s) && Enabled(s, step)
    ensures Inv(Next(s, step))
  {
    match step
    case Deliver(k, ws) => DeliverKeeps(s, k, ws);
    case CbUnlock(k) => CbUnlockKeeps(s, k);
    case CbLock(_) => CbStepKeeps(s, step);
    case CbSet(_) => CbStepKeeps(s, step);
    case CbNotify(_) => CbStepKeeps(s, step);
    case Build(w) => BuildKeeps(s, w);
    case Register(w, ok) => RegisterKeeps(s, w, ok);
    case _ => WaiterStepKeeps(s, step);
  }

  // ---- Whole runs -------------------------------------------------------

  predicate Runs(s: State, run: seq<Step>)
    decreases |run|
  {
    run != [] ==> Enabled(s, run[0]) && Runs(Next(s, run[0]), run[1..])
  }

  function After(s: State, run: seq<Step>): State
    requires Runs(s, run)
    decreases |run|
  {
    if run == [] then s else After(Next(s, run[0]), run[1..])
  }

  function Start(): State {
    State(map[], {}, map[], false)
  }

  lemma {:induction false} RunKeeps(s: State, run: seq<Step>)
    requires Inv(s) && Runs(s, run)
    ensures Inv(After(s, run))
    decreases |run|
  {
    if run != [] {
      StepKeeps(s, run[0]);
      RunKeeps(Next(s, run[0]), run[1..]);
    }
  }

  /** SQLite has called this waiter back and the callback has finished with it. */
  ghost predicate CalledBack(s: State, w: nat) {
    w in s.notes && s.notes[w].phase != Registering && s.notes[w].phase != Refused && !Owed(s, w)
  }

  /**
   * In every reachable state no callback has touched a dead object, a waiter
   * that is past its wait has had its flag set, and a waiter whose callback is
   * over is not asleep.
   */
  lemma UnlockNotifyIsSafe(run: seq<Step>, w: nat)
    requires Runs(Start(), run) && w in After(Start(), run).notes
    ensures var s := After(Start(), run); var n := s.notes[w];
      && !s.fault
      && (n.phase == Leaving || n.phase == Returning || n.phase == Gone ==> n.flag)
      && (n.flag ==> w !in s.pending)
      && (n.phase == Gone ==> !Owed(s, w))
      && (CalledBack(s, w) ==> n.flag && n.phase != Sleeping)
  {
    assert Inv(Start());
    RunKeeps(Start(), run);
    var s := After(Start(), run);
    OwedIsWaiting(s, w);
    HeldByCallback(s, w);
  }

  // ---- Waiters return ----------------------------------------------------

  /** The waiter's steps left once its callback is over. */
  function StepsLeft(p: Phase): nat {
    match p
    case Ready => 4
    case Woken => 4
    case Checking => 3
    case Leaving => 2
    case Returning => 1
    case _ => 0
  }

  function OwnStep(w: nat, p: Phase): Step {
    match p
    case Ready => Lock(w)
    case Woken => Relock(w)
    case Checking => Test(w)
    case Leaving => Unlock(w)
    case _ => Leave(w)
  }

  predicate IsOwn(step: Step, w: nat) {
    match step
    case Lock(x) => x == w
    case Relock(x) => x == w
    case Test(x) => x == w
    case Unlock(x) => x == w
    case Leave(x) => x == w
    case _ => false
  }

  function OwnSteps(run: seq<Step>, w: nat): nat {
    if run == [] then 0 else (if IsOwn(run[0], w) then 1 else 0) + OwnSteps(run[1..], w)
  }

  /** Once called back, a waiter that has not returned can always move, whatever the others do. */
  lemma CalledBackCanMove(s: State, w: nat)
    requires Inv(s) && CalledBack(s, w) && s.notes[w].phase != Gone
    ensures Enabled(s, OwnStep(w, s.notes[w].phase)) && IsOwn(OwnStep(w, s.notes[w].phase), w)
  {
    HeldByCallback(s, w);
  }

  lemma CalledBackAfterUnlock(s: State, w: nat, k: nat)
    requires Inv(s) && CalledBack(s, w) && Enabled(s, CbUnlock(k))
    ensures CalledBack(Next(s, CbUnlock(k)), w) && Next(s, CbUnlock(k)).notes[w] == s.notes[w]
  {
    CbUnlockIs(s, k);
    CbUnlockOwed(s, k, w);
  }

  /** A callback thread works only on waiters it still owes, so never on this one. */
  lemma CalledBackIsLeftAlone(s: State, w: nat, step: Step)
    requires Inv(s) && CalledBack(s, w) && Enabled(s, step)
    requires step.CbLock? || step.CbSet? || step.CbNotify?
    ensures CalledBack(Next(s, step), w) && Next(s, step).notes[w] == s.notes[w]
  {
    var k := step.k;
    var n, pc := CbStepIs(s, step);
    assert s.cbs[k].args[0] in s.cbs[k].args;
    SameOwed(s, CbChange(s, k, n, pc));
  }

  lemma CalledBackStep(s: State, w: nat, step: Step)
    requires Inv(s) && CalledBack(s, w) && Enabled(s, step)
    ensures var s' := Next(s, step);
      && CalledBack(s', w)
      && StepsLeft(s.notes[w].phase) == StepsLeft(s'.notes[w].phase) + (if IsOwn(step, w) then 1 else 0)
  {
    match step
    case CbLock(_) => CalledBackIsLeftAlone(s, w, step);
    case CbSet(_) => CalledBackIsLeftAlone(s, w, step);
    case CbNotify(_) => CalledBackIsLeftAlone(s, w, step);
    case CbUnlock(k) => CalledBackAfterUnlock(s, w, k);
    case Deliver(k, ws) => DeliverOwed(s, k, ws, w);
    case Build(_) => SameOwed(s, Next(s, step));
    case Register(x, _) => OthersNotOwed(s, step, w);
    case _ =>
      SameOwed(s, Next(s, step));
      if step.w == w {
        CalledBackOwnStep(s, w, step);
      }
  }

  lemma OthersNotOwed(s: State, step: Step, w: nat)
    requires Enabled(s, step) && step.Register? && step.w != w && !Owed(s, w)
    ensures !Owed(Next(s, step), w)
  {
  }

  lemma CalledBackOwnStep(s: State, w: nat, step: Step)
    requires Inv(s) && CalledBack(s, w) && Enabled(s, step)
    requires step.Lock? || step.Test? || step.WakeSpuriously? || step.Relock? || step.Unlock? || step.Leave?
    requires step.w == w
    ensures IsOwn(step, w) && w in Next(s, step).notes && Next(s, step).notes[w].phase != Refused
    ensures Next(s, step).notes[w].phase != Registering
    ensures StepsLeft(s.notes[w].phase) == StepsLeft(Next(s, step).notes[w].phase) + 1
  {
    HeldByCallback(s, w);
  }

  /**
   * From the moment its callback is over, every step of the waiter brings it one
   * nearer to returning and no step of anyone else takes it back: after at most
   * four of its own steps it has returned.
   */
  lemma {:induction false} WaiterReturns(s: State, w: nat, run: seq<Step>)
    requires Inv(s) && CalledBack(s, w) && Runs(s, run)
    ensures var s' := After(s, run);
      && w in s'.notes
      && StepsLeft(s'.notes[w].phase) + OwnSteps(run, w) == StepsLeft(s.notes[w].phase) <= 4
      && (s'.notes[w].phase == Gone <==> OwnSteps(run, w) == StepsLeft(s.notes[w].phase))
    decreases |run|
  {
    HeldByCallback(s, w);
    if run != [] {
      StepKeeps(s, run[0]);
      CalledBackStep(s, w, run[0]);
      WaiterReturns(Next(s, run[0]), w, run[1..]);
    }
  }

  /** A thread between two of its arguments waits for the next one's mutex only while its waiter tests the flag. */
  lemma IdleTarget(s: State, k: nat)
    requires Inv(s) && At(s, k, Idle)
    ensures var w := s.cbs[k].args[0];
      && w in s.notes && !s.notes[w].flag
      && (s.notes[w].mutex == Free || (s.notes[w].mutex == Waiter && s.notes[w].phase == Checking))
  {
    var w := s.cbs[k].args[0];
    assert CbOk(s, k, s.cbs[k]) && w in s.cbs[k].args && NoteOk(s, w, s.notes[w]);
    HeldByCallback(s, w);
  }

  /** A callback thread is never stuck: it can move, or the waiter holding the mutex can release it at once. */
  lemma CallbackCanMove(s: State, k: nat)
    requires Inv(s) && k in s.cbs && s.cbs[k].args != []
    ensures var w := s.cbs[k].args[0];
      || Enabled(s, CbLock(k)) || Enabled(s, CbSet(k)) || Enabled(s, CbNotify(k)) || Enabled(s, CbUnlock(k))
      || (Enabled(s, Test(w)) && Enabled(Next(s, Test(w)), CbLock(k)))
  {
    match s.cbs[k].pc
    case Idle => IdleTarget(s, k);
    case Locked => assert Enabled(s, CbSet(k));
    case FlagSet => assert Enabled(s, CbNotify(k));
    case Notified => assert Enabled(s, CbUnlock(k));
  }

  // ---- Registration and delivery -------------------------------------------

  /** A waiter waits only if it was registered: refused, it never takes the mutex and is never called back. */
  lemma RegistrationDecides(s: State, w: nat, ok: bool)
    requires Inv(s) && Enabled(s, Register(w, ok))
    ensures var s' := Next(s, Register(w, ok));
      && (ok ==> w in s'.pending && s'.notes[w].phase == Ready)
      && (!ok ==> s'.notes[w].phase == Refused && !Owed(s', w))
  {
    NewWaiterIsNotOwed(s, w);
  }

  /** A refused waiter has no step of its own and nothing touches it. */
  lemma RefusedStays(s: State, w: nat, step: Step)
    requires Inv(s) && Has(s, w, Refused) && Enabled(s, step)
    ensures !IsOwn(step, w) && Has(Next(s, step), w, Refused)
  {
    if step.CbLock? || step.CbSet? || step.CbNotify? || step.CbUnlock? {
      RefusedIsNoTarget(s, w, step.k);
    }
  }

  lemma RefusedIsNoTarget(s: State, w: nat, k: nat)
    requires Inv(s) && Has(s, w, Refused) && k in s.cbs && s.cbs[k].args != []
    ensures s.cbs[k].args[0] != w
  {
    assert NoteOk(s, w, s.notes[w]) && s.cbs[k].args[0] in s.cbs[k].args;
  }

  lemma OneMore(s: State, step: Step, rest: seq<Step>)
    requires Enabled(s, step) && Runs(Next(s, step), rest)
    ensures Runs(s, [step] + rest) && After(s, [step] + rest) == After(Next(s, step), rest)
  {
    assert ([step] + rest)[1..] == rest;
  }

  /** Setting the flag, waking the waiter and releasing the mutex, by a callback thread that has taken it. */
  function Firing(k: nat): seq<Step> {
    [CbSet(k)] + ([CbNotify(k)] + [CbUnlock(k)])
  }

  lemma CanFire(s: State, w: nat, k: nat)
    requires Inv(s) && At(s, k, Locked) && s.cbs[k].args == [w]
    ensures var s1 := Next(s, CbSet(k));
      var s2 := Next(s1, CbNotify(k));
      Inv(s2) && At(s2, k, Notified) && s2.cbs[k].args == [w]
  {
    var s1 := Next(s, CbSet(k));
    StepKeeps(s, CbSet(k));
    StepKeeps(s1, CbNotify(k));
  }

  lemma FiredIsCalledBack(s: State, w: nat, k: nat)
    requires Inv(s) && At(s, k, Notified) && s.cbs[k].args == [w]
    ensures Inv(Next(s, CbUnlock(k))) && CalledBack(Next(s, CbUnlock(k)), w)
  {
    StepKeeps(s, CbUnlock(k));
    CbUnlockIs(s, k);
    CbUnlockOwed(s, k, w);
    assert CbOk(s, k, s.cbs[k]);
  }

  lemma FiringCompletes(s: State, w: nat, k: nat)
    requires Inv(s) && At(s, k, Locked) && s.cbs[k].args == [w]
    ensures Runs(s, Firing(k)) && Inv(After(s, Firing(k))) && CalledBack(After(s, Firing(k)), w)
  {
    CanFire(s, w, k);
    FiredIsCalledBack(Next(Next(s, CbSet(k)), CbNotify(k)), w, k);
    ThreeSteps(s, CbSet(k), CbNotify(k), CbUnlock(k));
  }

  lemma ThreeSteps(s: State, a: Step, b: Step, c: Step)
    requires Enabled(s, a) && Enabled(Next(s, a), b) && Enabled(Next(Next(s, a), b), c)
    ensures Runs(s, [a] + ([b] + [c])) && After(s, [a] + ([b] + [c])) == Next(Next(Next(s, a), b), c)
  {
    var s1, last := Next(s, a), [c];
    assert last == last + [];
    OneMore(Next(s1, b), c, []);
    OneMore(s1, b, last);
    OneMore(s, a, [b] + last);
  }

  /**
   * From any state in which a registered waiter is not itself holding its mutex, a
   * new callback thread can be given it and run to its end, after which the waiter
   * has been called back: before it waits, while it sleeps, or woken for no reason.
   */
  lemma CallbackCompletes(s: State, w: nat, k: nat)
    requires Inv(s) && w in s.pending && k !in s.cbs && s.notes[w].mutex == Free
    ensures var run := [Deliver(k, [w])] + ([CbLock(k)] + Firing(k));
      Runs(s, run) && Inv(After(s, run)) && CalledBack(After(s, run), w)
  {
    var s1 := Next(s, Deliver(k, [w]));
    StepKeeps(s, Deliver(k, [w]));
    var s2 := Next(s1, CbLock(k));
    StepKeeps(s1, CbLock(k));
    assert CbOk(s1, k, s1.cbs[k]) && s1.notes[w] == s.notes[w];
    FiringCompletes(s2, w, k);
    OneMore(s1, CbLock(k), Firing(k));
    OneMore(s, Deliver(k, [w]), [CbLock(k)] + Firing(k));
  }

  /** A waiter whose flag is not set goes to sleep, and can wake for no reason and look again. */
  lemma UnsetFlagSleeps(s: State, w: nat)
    requires Inv(s) && Has(s, w, Checking) && !s.notes[w].flag
    ensures Enabled(s, Test(w)) && Has(Next(s, Test(w)), w, Sleeping)
    ensures var s1 := Next(s, Test(w));
      Enabled(s1, WakeSpuriously(w)) && Enabled(Next(s1, WakeSpuriously(w)), Relock(w))
      && Next(Next(s1, WakeSpuriously(w)), Relock(w)) == s
  {
    assert NoteOk(s, w, s.notes[w]);
    assert s.notes[w := s.notes[w]] == s.notes;
  }
}
