// The retry loops around sqlite3_step and sqlite3_prepare_v3 when a shared
// cache is locked. What the library would answer is a script of attempts.
module LockedRetry {
  import opened Wrappers
  import opened Sqlite

  /** One attempt: the call's code, the extended code behind it, and the answer to registering. */
  datatype Attempt = Attempt(rc: int, extended: int, registered: int)

  datatype Call = Try | Register | Wait | Reset

  /** `rc & 0xFF`. */
  function Primary(rc: int): int {
    rc % 256
  }

  predicate IsLocked(rc: int, extended: int) {
    || rc == SQLITE_LOCKED_SHAREDCACHE
    || (Primary(rc) == SQLITE_LOCKED && extended == SQLITE_LOCKED_SHAREDCACHE)
  }

  /** A lock is any code of that kind when either code, the one returned or the extended one, is the shared cache's. */
  lemma LockCodes(rc: int, extended: int)
    ensures IsLocked(rc, extended)
       <==> rc % 256 == 6 && (rc == SQLITE_LOCKED_SHAREDCACHE || extended == SQLITE_LOCKED_SHAREDCACHE)
  {
  }

  predicate Blocked(a: Attempt) {
    IsLocked(a.rc, a.extended)
  }

  /** The attempts that end in a completed wait come before this one. */
  function FirstFinal(script: seq<Attempt>): (k: nat)
    ensures k <= |script|
    ensures forall i | 0 <= i < k :: Blocked(script[i]) && script[i].registered == SQLITE_OK
    ensures k < |script| ==> !(Blocked(script[k]) && script[k].registered == SQLITE_OK)
  {
    if script == [] || !(Blocked(script[0]) && script[0].registered == SQLITE_OK) then 0
    else 1 + FirstFinal(script[1..])
  }

  function Rounds(k: nat, resets: bool): seq<Call> {
    if k == 0 then [] else Rounds(k - 1, resets) + Round(resets)
  }

  function Round(resets: bool): seq<Call> {
    if resets then [Try, Register, Wait, Reset] else [Try, Register, Wait]
  }

  /**
   * The code returned, the last attempt's own unless that was a lock; `None` while every attempt of the script was followed by
   * a completed wait. A shared-cache lock is reported only when registering for
   * its end was refused, and then with the refusal's code.
   */
  function Answer(script: seq<Attempt>): (rc: Option<int>)
    ensures rc.None? <==> FirstFinal(script) == |script|
    ensures rc.Some? ==>
      var last := script[FirstFinal(script)];
      && (if Blocked(last) then last.registered != SQLITE_OK && rc.value == last.registered else rc.value == last.rc)
      && (rc.value == SQLITE_LOCKED_SHAREDCACHE ==> Blocked(last) && last.registered == SQLITE_LOCKED_SHAREDCACHE)
  {
    var k := FirstFinal(script);
    if k == |script| then None
    else Some(if Blocked(script[k]) then script[k].registered else script[k].rc)
  }

  function Calls(script: seq<Attempt>, resets: bool): seq<Call> {
    var k := FirstFinal(script);
    Rounds(k, resets)
    + if k == |script| then [] else if Blocked(script[k]) then [Try, Register] else [Try]
  }

  /** `RawStatement::step`: leaves at once on any code that is not a lock. */
  method StepRetrying(script: seq<Attempt>) returns (rc: Option<int>, log: seq<Call>)
    ensures rc == Answer(script) && log == Calls(script, true)
  {
    log := [];
    for i := 0 to |script|
      invariant i <= FirstFinal(script)
      invariant log == Rounds(i, true)
    {
      log := log + [Try];
      if Primary(script[i].rc) != SQLITE_LOCKED {
        return Some(script[i].rc), log;
      }
      if !IsLocked(script[i].rc, script[i].extended) {
        return Some(script[i].rc), log;
      }
      log := log + [Register];
      if script[i].registered != SQLITE_OK {
        return Some(script[i].registered), log;
      }
      log := log + [Wait, Reset];
      assert log == Rounds(i, true) + Round(true);
    }
    rc := None;
  }

  /** The loop in `InnerConnection::prepare`: no early exit and nothing to reset. */
  method PrepareRetrying(script: seq<Attempt>) returns (rc: Option<int>, log: seq<Call>)
    ensures rc == Answer(script) && log == Calls(script, false)
  {
    log := [];
    for i := 0 to |script|
      invariant i <= FirstFinal(script)
      invariant log == Rounds(i, false)
    {
      log := log + [Try];
      if !IsLocked(script[i].rc, script[i].extended) {
        return Some(script[i].rc), log;
      }
      log := log + [Register];
      if script[i].registered != SQLITE_OK {
        return Some(script[i].registered), log;
      }
      log := log + [Wait];
      assert log == Rounds(i, false) + Round(false);
    }
    rc := None;
  }

  function Count(log: seq<Call>, call: Call): nat {
    if log == [] then 0 else Count(log[..|log| - 1], call) + if log[|log| - 1] == call then 1 else 0
  }

  lemma {:induction false} CountBoth(a: seq<Call>, b: seq<Call>, call: Call)
    ensures Count(a + b, call) == Count(a, call) + Count(b, call)
    decreases |b|
  {
    if b == [] {
      assert a + b == a;
    } else {
      assert (a + b)[..|a + b| - 1] == a + b[..|b| - 1];
      CountBoth(a, b[..|b| - 1], call);
    }
  }

  lemma CountRound(resets: bool, call: Call)
    ensures Count(Round(resets), call) == if call == Reset && !resets then 0 else 1
  {
    var r := Round(resets);
    assert r[..|r| - 1] == if resets then [Try, Register, Wait] else [Try, Register];
    assert [Try, Register, Wait][..2] == [Try, Register] && [Try, Register][..1] == [Try] && [Try][..0] == [];
  }

  lemma {:induction false} CountRounds(k: nat, resets: bool, call: Call)
    ensures Count(Rounds(k, resets), call) == if call == Reset && !resets then 0 else k
  {
    if k > 0 {
      CountRounds(k - 1, resets, call);
      CountRound(resets, call);
      CountBoth(Rounds(k - 1, resets), Round(resets), call);
    }
  }

  lemma CountEnds(call: Call)
    ensures Count([Try], call) == if call == Try then 1 else 0
    ensures Count([Try, Register], call) == if call == Try || call == Register then 1 else 0
  {
    assert [Try, Register][..1] == [Try] && [Try][..0] == [];
  }

  /**
   * One try for each attempt up to the one that decides, one wait for each before
   * it and, for a step, one reset for each wait; one registration for each lock met.
   */
  lemma CallsAreCounted(script: seq<Attempt>, resets: bool)
    ensures var k := FirstFinal(script);
      var log := Calls(script, resets);
      && Count(log, Try) == (if k < |script| then k + 1 else k)
      && Count(log, Register) == (if k < |script| && Blocked(script[k]) then k + 1 else k)
      && Count(log, Wait) == k
      && Count(log, Reset) == if resets then k else 0
  {
    var k := FirstFinal(script);
    var end := if k == |script| then [] else if Blocked(script[k]) then [Try, Register] else [Try];
    forall call
      ensures Count(Calls(script, resets), call) == (if call == Reset && !resets then 0 else k) + Count(end, call)
    {
      CountRounds(k, resets, call);
      CountBoth(Rounds(k, resets), end, call);
    }
    CountEnds(Try);
    CountEnds(Register);
    CountEnds(Wait);
    CountEnds(Reset);
  }

  lemma {:induction false} RoundsShape(k: nat, i: nat)
    requires i < |Rounds(k, true)|
    ensures |Rounds(k, true)| == 4 * k && Rounds(k, true)[i] == Round(true)[i % 4]
    decreases k
  {
    if k > 1 {
      var before := Rounds(k - 1, true);
      RoundsShape(k - 1, if i < |before| then i else 0);
      assert i >= |before| ==> i % 4 == i - |before|;
    }
  }

  /** A step call after the first starts a round or comes after the last full one. */
  lemma LaterTry(script: seq<Attempt>, i: nat)
    requires var log := Calls(script, true); i < |log| && log[i] == Try && i > 0
    ensures i % 4 == 0 && 4 <= i <= |Rounds(FirstFinal(script), true)|
  {
    var rounds := Rounds(FirstFinal(script), true);
    if i < |rounds| {
      RoundsShape(FirstFinal(script), i);
    } else if rounds != [] {
      RoundsShape(FirstFinal(script), 0);
    }
  }

  /** Every sqlite3_step after the first comes right after a registration, a completed wait and a reset. */
  lemma RetryFollowsWaitAndReset(script: seq<Attempt>, i: nat)
    requires var log := Calls(script, true); i < |log| && log[i] == Try && i > 0
    ensures i >= 4 && Calls(script, true)[i - 4..i] == [Try, Register, Wait, Reset]
  {
    var k := FirstFinal(script);
    LaterTry(script, i);
    forall j | 0 <= j < 4
      ensures Rounds(k, true)[i - 4 + j] == Round(true)[j]
    {
      RoundsShape(k, i - 4 + j);
      assert (i - 4 + j) % 4 == j;
    }
    assert Rounds(k, true)[i - 4..i] == Round(true);
  }
}
