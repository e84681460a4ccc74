// Copying a database page by page: the loops of backup, restore and
// run_to_completion over sqlite3_backup_step.
module Backups {
  import opened Wrappers
  import opened Sqlite

  /** What the next step will meet; once the script is over every step proceeds. */
  datatype Turn = Proceed | MeetBusy | MeetLocked | MeetError(code: int)

  /** The destination takes the new content only when the last page is copied. */
  datatype Copy<+P> = Copy(source: seq<P>, copied: nat, dest: seq<P>, turns: seq<Turn>)

  datatype StepResult = Done | More | Busy | Locked

  /** sqlite3_backup_step for a positive number of pages. */
  function CopyStep<P>(c: Copy<P>, pages: nat): (Copy<P>, int)
    requires c.copied <= |c.source|
  {
    var turn := if c.turns == [] then Proceed else c.turns[0];
    var c1 := if c.turns == [] then c else c.(turns := c.turns[1..]);
    match turn
    case MeetBusy => (c1, SQLITE_BUSY)
    case MeetLocked => (c1, SQLITE_LOCKED)
    case MeetError(code) => (c1, code)
    case Proceed =>
      if c.copied + pages >= |c.source| then (c1.(copied := |c.source|, dest := c.source), SQLITE_DONE)
      else (c1.(copied := c.copied + pages), SQLITE_OK)
  }

  /** Other codes than these are errors of their own, never one of the four in disguise. */
  predicate Scripted(turns: seq<Turn>) {
    forall i | 0 <= i < |turns| && turns[i].MeetError? ::
      turns[i].code != SQLITE_OK && turns[i].code != SQLITE_DONE && turns[i].code != SQLITE_BUSY && turns[i].code != SQLITE_LOCKED
  }

  function Decode(rc: int): Result<StepResult, int> {
    if rc == SQLITE_DONE then Success(Done)
    else if rc == SQLITE_OK then Success(More)
    else if rc == SQLITE_BUSY then Success(Busy)
    else if rc == SQLITE_LOCKED then Success(Locked)
    else Failure(rc)
  }

  /** When a loop gives up: at the `busyLimit`-th busy step (0: never), and at a locked one unless it waits. */
  datatype Policy = Policy(busyLimit: nat, waitsLocked: bool)

  const BACKUP := Policy(1, false)
  const RESTORE := Policy(3, false)
  const TO_COMPLETION := Policy(0, true)

  datatype Outcome<+P> = Outcome(copy: Copy<P>, result: Result<(), int>, steps: nat)

  /** What each loop does from here, `busy` busy steps being behind it. */
  function Loop<P>(c: Copy<P>, pages: nat, p: Policy, busy: nat): Outcome<P>
    requires c.copied <= |c.source| && pages > 0
    decreases |c.turns|, |c.source| - c.copied
  {
    var (c1, rc) := CopyStep(c, pages);
    match Decode(rc)
    case Failure(code) => Outcome(c1, Failure(code), 1)
    case Success(Done) => Outcome(c1, Success(()), 1)
    case Success(More) => Again(Loop(c1, pages, p, busy))
    case Success(Busy) =>
      if GivesUp(p, busy + 1) then Outcome(c1, Failure(SQLITE_BUSY), 1)
      else Again(Loop(c1, pages, p, busy + 1))
    case Success(Locked) =>
      if p.waitsLocked then Again(Loop(c1, pages, p, busy)) else Outcome(c1, Failure(SQLITE_LOCKED), 1)
  }

  predicate GivesUp(p: Policy, busy: nat) {
    p.busyLimit > 0 && busy >= p.busyLimit
  }

  function Again<P>(o: Outcome<P>): Outcome<P> {
    o.(steps := o.steps + 1)
  }

  /** What backup and restore report of the step result they stopped at. */
  function Reported(r: StepResult): Result<(), int>
    requires r != More
  {
    match r
    case Done => Success(())
    case Busy => Failure(SQLITE_BUSY)
    case Locked => Failure(SQLITE_LOCKED)
  }

  // ---- The loops -------------------------------------------------------------

  class Backup<P> {
    var c: Copy<P>

    constructor (source: seq<P>, dest: seq<P>, turns: seq<Turn>)
      ensures c == Copy(source, 0, dest, turns)
    {
      c := Copy(source, 0, dest, turns);
    }

    method Step(pages: nat) returns (r: Result<StepResult, int>)
      requires c.copied <= |c.source|
      modifies this
      ensures c == CopyStep(old(c), pages).0 && r == Decode(CopyStep(old(c), pages).1)
    {
      var (c', rc) := CopyStep(c, pages);
      c := c';
      r := Decode(rc);
    }

    method RunBackup() returns (result: Result<(), int>, ghost steps: nat)
      requires c.copied <= |c.source|
      modifies this
      ensures Outcome(c, result, steps) == Loop(old(c), 100, BACKUP, 0)
    {
      ghost var start := c;
      var r := More;
      steps := 0;
      while r == More
        invariant c.copied <= |c.source|
        invariant r == More ==> Loop(start, 100, BACKUP, 0) == Plus(Loop(c, 100, BACKUP, 0), steps)
        invariant r != More ==> Loop(start, 100, BACKUP, 0) == Outcome(c, Reported(r), steps)
        decreases r == More, |c.turns|, |c.source| - c.copied
      {
        var stepped := Step(100);
        steps := steps + 1;
        if stepped.Failure? {
          return Failure(stepped.error), steps;
        }
        r := stepped.value;
      }
      result := Reported(r);
    }

    method RunRestore() returns (result: Result<(), int>, ghost steps: nat)
      requires c.copied <= |c.source|
      modifies this
      ensures Outcome(c, result, steps) == Loop(old(c), 100, RESTORE, 0)
    {
      ghost var start := c;
      var r, busyCount := More, 0;
      steps := 0;
      while r == More || r == Busy
        invariant c.copied <= |c.source| && busyCount < 3
        invariant r == More || r == Busy ==> Loop(start, 100, RESTORE, 0) == Plus(Loop(c, 100, RESTORE, busyCount), steps)
        invariant r == Done || r == Locked ==> Loop(start, 100, RESTORE, 0) == Outcome(c, Reported(r), steps)
        decreases r == More || r == Busy, |c.turns|, |c.source| - c.copied
      {
        var stepped := Step(100);
        steps := steps + 1;
        if stepped.Failure? {
          return Failure(stepped.error), steps;
        }
        r := stepped.value;
        if r == Busy {
          busyCount := busyCount + 1;
          if busyCount >= 3 {
            break;
          }
        }
      }
      result := Reported(r);
    }

    method RunToCompletion(pagesPerStep: nat) returns (result: Result<(), int>, ghost steps: nat)
      requires c.copied <= |c.source| && pagesPerStep > 0
      modifies this
      ensures Outcome(c, result, steps) == Loop(old(c), pagesPerStep, TO_COMPLETION, 0)
    {
      ghost var start := c;
      ghost var busy := 0;
      steps := 0;
      while true
        invariant c.copied <= |c.source|
        invariant Loop(start, pagesPerStep, TO_COMPLETION, 0) == Plus(Loop(c, pagesPerStep, TO_COMPLETION, busy), steps)
        decreases |c.turns|, |c.source| - c.copied
      {
        var stepped := Step(pagesPerStep);
        steps := steps + 1;
        if stepped.Failure? {
          return Failure(stepped.error), steps;
        }
        if stepped.value == Done {
          return Success(()), steps;
        }
        busy := if stepped.value == Busy then busy + 1 else busy;
      }
    }
  }

  function Plus<P>(o: Outcome<P>, steps: nat): Outcome<P> {
    o.(steps := o.steps + steps)
  }

  // ---- When a loop succeeds ------------------------------------------------------

  /** The proceeding steps needed for this many pages: at least one. */
  function StepsFor(left: nat, pages: nat): nat
    requires pages > 0
  {
    if left <= pages then 1 else 1 + StepsFor(left - pages, pages)
  }

  /** The fewest steps that hold this many pages. */
  lemma {:induction false} StepsForFits(left: nat, pages: nat)
    requires pages > 0
    ensures var n := StepsFor(left, pages);
      n >= 1 && left <= n * pages && (n > 1 ==> (n - 1) * pages < left)
    decreases left
  {
    if left > pages {
      var m := StepsFor(left - pages, pages);
      StepsForFits(left - pages, pages);
      assert (m + 1) * pages == m * pages + pages;
      assert m > 1 ==> m * pages == (m - 1) * pages + pages;
    }
  }

  lemma {:induction false} StepsForHundred(left: nat)
    ensures StepsFor(left, 100) == if left == 0 then 1 else (left + 99) / 100
  {
    if left > 100 {
      StepsForHundred(left - 100);
    }
  }

  /** Where in the script the policy gives up, or its length if nowhere. */
  function StopsAt(turns: seq<Turn>, p: Policy, busy: nat): (k: nat)
    ensures k <= |turns|
  {
    if turns == [] then 0
    else
      match turns[0]
      case MeetError(_) => 0
      case MeetLocked => if p.waitsLocked then 1 + StopsAt(turns[1..], p, busy) else 0
      case MeetBusy => if GivesUp(p, busy + 1) then 0 else 1 + StopsAt(turns[1..], p, busy + 1)
      case Proceed => 1 + StopsAt(turns[1..], p, busy)
  }

  function Proceeding(turns: seq<Turn>): nat {
    if turns == [] then 0 else (if turns[0] == Proceed then 1 else 0) + Proceeding(turns[1..])
  }

  /** The turns spent waiting before the `need`-th that proceeds. */
  function Waits(turns: seq<Turn>, need: nat): nat {
    if turns == [] || need == 0 then 0
    else if turns[0] == Proceed then Waits(turns[1..], need - 1)
    else 1 + Waits(turns[1..], need)
  }

  /** What a loop owes its caller, by the turns it will meet. */
  ghost predicate Kept<P>(c: Copy<P>, pages: nat, p: Policy, busy: nat)
    requires c.copied <= |c.source| && pages > 0
  {
    var o := Loop(c, pages, p, busy);
    var need := StepsFor(|c.source| - c.copied, pages);
    && o.copy.source == c.source
    && (o.result.Success? <==> EnoughProceed(c.turns, p, busy, need))
    && (o.result.Success? ==> o.copy.dest == c.source && o.steps == need + Waits(c.turns, need))
    && (o.result.Failure? ==> o.copy.dest == c.dest)
  }

  /** The error of the turn a loop gave up at. */
  predicate FailsWith(r: Result<(), int>, turns: seq<Turn>, k: nat) {
    && k < |turns|
    && match turns[k]
       case Proceed => false
       case MeetBusy => r == Failure(SQLITE_BUSY)
       case MeetLocked => r == Failure(SQLITE_LOCKED)
       case MeetError(code) => r == Failure(code)
  }

  predicate EnoughProceed(turns: seq<Turn>, p: Policy, busy: nat, need: nat) {
    var stop := StopsAt(turns, p, busy);
    stop == |turns| || Proceeding(turns[..stop]) >= need
  }

  lemma EnoughAfter(turns: seq<Turn>, p: Policy, busy: nat, need: nat)
    requires turns != [] && need > 0
    ensures EnoughProceed(turns, p, busy, need)
         == match turns[0]
            case MeetError(_) => false
            case MeetLocked => p.waitsLocked && EnoughProceed(turns[1..], p, busy, need)
            case MeetBusy => !GivesUp(p, busy + 1) && EnoughProceed(turns[1..], p, busy + 1, need)
            case Proceed => need == 1 || EnoughProceed(turns[1..], p, busy, need - 1)
  {
    var stop := StopsAt(turns, p, busy);
    if stop > 0 {
      assert turns[..stop][1..] == turns[1..][..stop - 1];
    }
  }

  /**
   * A loop succeeds exactly when enough steps proceed before its policy gives up.
   * It then used one step for each and one for each wait, and the destination is
   * the source; otherwise the destination is as it was.
   */
  lemma {:induction false} LoopSucceedsExactly<P>(c: Copy<P>, pages: nat, p: Policy, busy: nat)
    requires c.copied <= |c.source| && pages > 0 && Scripted(c.turns)
    ensures Kept(c, pages, p, busy)
    decreases |c.turns|, |c.source| - c.copied
  {
    var (c1, rc) := CopyStep(c, pages);
    var need := StepsFor(|c.source| - c.copied, pages);
    if c.turns == [] {
      if rc == SQLITE_OK {
        LoopSucceedsExactly(c1, pages, p, busy);
      }
    } else {
      EnoughAfter(c.turns, p, busy, need);
      assert c1.turns == c.turns[1..];
      match c.turns[0]
      case MeetError(_) =>
      case MeetLocked =>
        if p.waitsLocked {
          LoopSucceedsExactly(c1, pages, p, busy);
        }
      case MeetBusy =>
        if !GivesUp(p, busy + 1) {
          LoopSucceedsExactly(c1, pages, p, busy + 1);
        }
      case Proceed =>
        if rc == SQLITE_OK {
          LoopSucceedsExactly(c1, pages, p, busy);
        }
    }
  }

  /** A loop that fails reports the obstacle its policy gave up at. */
  lemma {:induction false} LoopFailsWith<P>(c: Copy<P>, pages: nat, p: Policy, busy: nat)
    requires c.copied <= |c.source| && pages > 0 && Scripted(c.turns)
    ensures var o := Loop(c, pages, p, busy);
      o.result.Failure? ==> FailsWith(o.result, c.turns, StopsAt(c.turns, p, busy))
    decreases |c.turns|, |c.source| - c.copied
  {
    var (c1, rc) := CopyStep(c, pages);
    if c.turns == [] {
      if rc == SQLITE_OK {
        LoopFailsWith(c1, pages, p, busy);
      }
    } else if c.turns[0] == MeetBusy {
      if !GivesUp(p, busy + 1) {
        LoopFailsWith(c1, pages, p, busy + 1);
      }
    } else if rc == SQLITE_OK || (rc == SQLITE_LOCKED && p.waitsLocked) {
      LoopFailsWith(c1, pages, p, busy);
    }
  }

  /** A policy that gives up at the n-th busy step and does not wait for locks waits fewer than n times. */
  lemma {:induction false} WaitsAreFew(turns: seq<Turn>, p: Policy, busy: nat, need: nat)
    requires busy < p.busyLimit && !p.waitsLocked
    requires EnoughProceed(turns, p, busy, need)
    ensures Waits(turns, need) <= p.busyLimit - 1 - busy
  {
    if turns != [] && need > 0 {
      EnoughAfter(turns, p, busy, need);
      if turns[0] != Proceed {
        WaitsAreFew(turns[1..], p, busy + 1, need);
      } else if need > 1 {
        WaitsAreFew(turns[1..], p, busy, need - 1);
      }
    }
  }

  function BusyTurns(turns: seq<Turn>): nat {
    if turns == [] then 0 else (if turns[0] == MeetBusy then 1 else 0) + BusyTurns(turns[1..])
  }

  /** Where a policy that does not wait for locks gives up, told from the turns alone. */
  ghost predicate GivesUpAt(turns: seq<Turn>, limit: nat, busy: nat, k: nat) {
    && k <= |turns|
    && (forall i | 0 <= i < k :: turns[i] == Proceed || turns[i] == MeetBusy)
    && busy + BusyTurns(turns[..k]) < limit
    && (k < |turns| ==>
          || turns[k] == MeetLocked || turns[k].MeetError?
          || (turns[k] == MeetBusy && busy + BusyTurns(turns[..k]) + 1 == limit))
  }

  lemma {:induction false} StopIsGivingUp(turns: seq<Turn>, p: Policy, busy: nat)
    requires busy < p.busyLimit && !p.waitsLocked
    ensures GivesUpAt(turns, p.busyLimit, busy, StopsAt(turns, p, busy))
  {
    var k := StopsAt(turns, p, busy);
    if k > 0 {
      var next := if turns[0] == MeetBusy then busy + 1 else busy;
      StopIsGivingUp(turns[1..], p, next);
      assert turns[..k][1..] == turns[1..][..k - 1];
      assert forall i | 1 <= i < |turns| :: turns[i] == turns[1..][i - 1];
    }
  }

  /** A whole copy under a policy that waits for busy steps only. */
  lemma ImpatientLoop<P>(c: Copy<P>, p: Policy)
    requires c.copied == 0 && Scripted(c.turns) && p.busyLimit > 0 && !p.waitsLocked
    ensures var o := Loop(c, 100, p, 0);
      var need := StepsFor(|c.source|, 100);
      && (o.result.Success? <==> EnoughProceed(c.turns, p, 0, need))
      && (o.result.Success? ==> need <= o.steps < need + p.busyLimit)
      && (o.result.Failure? ==> FailsWith(o.result, c.turns, StopsAt(c.turns, p, 0)))
      && o.copy.dest == if o.result.Success? then c.source else c.dest
  {
    var need := StepsFor(|c.source|, 100);
    LoopSucceedsExactly(c, 100, p, 0);
    LoopFailsWith(c, 100, p, 0);
    if EnoughProceed(c.turns, p, 0, need) {
      WaitsAreFew(c.turns, p, 0, need);
    }
  }

  /**
   * restore succeeds exactly when the last page is copied before a third busy
   * step in all, before any locked one and before any error, and then within two
   * steps of the fewest possible.
   */
  lemma RestoreExactly<P>(source: seq<P>, dest: seq<P>, turns: seq<Turn>)
    requires Scripted(turns)
    ensures var o := Loop(Copy(source, 0, dest, turns), 100, RESTORE, 0);
      var need := if source == [] then 1 else (|source| + 99) / 100;
      var stop := StopsAt(turns, RESTORE, 0);
      && GivesUpAt(turns, 3, 0, stop)
      && (o.result.Success? <==> stop == |turns| || Proceeding(turns[..stop]) >= need)
      && (o.result.Failure? ==> FailsWith(o.result, turns, stop))
      && (o.result.Success? ==> need <= o.steps <= need + 2)
      && o.copy.dest == if o.result.Success? then source else dest
  {
    StepsForHundred(|source|);
    StopIsGivingUp(turns, RESTORE, 0);
    ImpatientLoop(Copy(source, 0, dest, turns), RESTORE);
  }

  /** backup does not wait at all, so it succeeds in the fewest steps or not. */
  lemma BackupExactly<P>(source: seq<P>, dest: seq<P>, turns: seq<Turn>)
    requires Scripted(turns)
    ensures var o := Loop(Copy(source, 0, dest, turns), 100, BACKUP, 0);
      var need := if source == [] then 1 else (|source| + 99) / 100;
      && (o.result.Success? <==> forall i | 0 <= i < |turns| && i < need :: turns[i] == Proceed)
      && (o.result.Success? ==> o.steps == need)
      && (o.result.Failure? ==>
            exists k :: FailsWith(o.result, turns, k) && forall i | 0 <= i < k :: turns[i] == Proceed)
      && o.copy.dest == if o.result.Success? then source else dest
  {
    StepsForHundred(|source|);
    FirstTurnsProceed(turns, StepsFor(|source|, 100));
    StopIsGivingUp(turns, BACKUP, 0);
    NotBusyBefore(turns, StopsAt(turns, BACKUP, 0));
    ImpatientLoop(Copy(source, 0, dest, turns), BACKUP);
  }

  lemma {:induction false} NotBusyBefore(turns: seq<Turn>, k: nat)
    requires k <= |turns| && BusyTurns(turns[..k]) == 0
    ensures forall i | 0 <= i < k :: turns[i] != MeetBusy
  {
    if k > 0 {
      assert turns[..k][1..] == turns[1..][..k - 1];
      NotBusyBefore(turns[1..], k - 1);
      assert forall i | 1 <= i < k :: turns[i] == turns[1..][i - 1];
    }
  }

  lemma {:induction false} FirstTurnsProceed(turns: seq<Turn>, need: nat)
    ensures EnoughProceed(turns, BACKUP, 0, need)
       <==> forall i | 0 <= i < |turns| && i < need :: turns[i] == Proceed
  {
    if turns != [] && need > 0 && turns[0] == Proceed {
      var stop := StopsAt(turns, BACKUP, 0);
      assert turns[..stop][1..] == turns[1..][..stop - 1];
      FirstTurnsProceed(turns[1..], need - 1);
      assert forall i | 1 <= i < |turns| :: turns[i] == turns[1..][i - 1];
      assert forall i | 0 <= i < |turns| - 1 :: turns[1..][i] == turns[i + 1];
    }
  }

  /** run_to_completion fails only on an error met before enough steps proceed. */
  lemma CompletionExactly<P>(source: seq<P>, dest: seq<P>, turns: seq<Turn>, pages: nat)
    requires Scripted(turns) && pages > 0
    ensures var o := Loop(Copy(source, 0, dest, turns), pages, TO_COMPLETION, 0);
      var stop := StopsAt(turns, TO_COMPLETION, 0);
      && (stop < |turns| ==> turns[stop].MeetError?)
      && (forall i | 0 <= i < stop :: !turns[i].MeetError?)
      && (o.result.Success? <==> stop == |turns| || Proceeding(turns[..stop]) >= StepsFor(|source|, pages))
      && (o.result.Failure? ==> o.result == Failure(turns[stop].code))
      && o.copy.dest == if o.result.Success? then source else dest
  {
    LoopSucceedsExactly(Copy(source, 0, dest, turns), pages, TO_COMPLETION, 0);
    LoopFailsWith(Copy(source, 0, dest, turns), pages, TO_COMPLETION, 0);
    StopIsError(turns, 0);
  }

  lemma {:induction false} StopIsError(turns: seq<Turn>, busy: nat)
    ensures var stop := StopsAt(turns, TO_COMPLETION, busy);
      && (stop < |turns| ==> turns[stop].MeetError?)
      && (forall i | 0 <= i < stop :: !turns[i].MeetError?)
  {
    if turns != [] && !turns[0].MeetError? {
      StopIsError(turns[1..], if turns[0] == MeetBusy then busy + 1 else busy);
    }
  }
}
