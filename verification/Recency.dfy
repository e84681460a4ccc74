// What eviction in order of last return means: of two caches driven by the same
// run, the smaller always holds just the most recently returned part of what
// the larger holds.
module Recency {
  import opened Wrappers
  import opened Sqlite
  import opened Statements
  import opened StatementCaches
  import opened CachedRuns

  /** The keys of `a` are the last keys of `b`, in the same order. */
  ghost predicate Recent(a: seq<Raw>, b: seq<Raw>) {
    |a| <= |b| && forall i | 0 <= i < |a| :: a[i].key == b[|b| - |a| + i].key
  }

  ghost predicate KeysDiffer(s: seq<Raw>) {
    forall i, j | 0 <= i < j < |s| :: s[i].key != s[j].key
  }

  function Removed(s: seq<Raw>, key: string): seq<Raw> {
    var i := Find(s, key);
    if i < |s| then Without(s, i) else s
  }

  /** A key found in the smaller cache is found in the larger one, as many places from the end. */
  lemma FindRecent(a: seq<Raw>, b: seq<Raw>, key: string)
    requires Recent(a, b) && KeysDiffer(b)
    ensures var i, j, d := Find(a, key), Find(b, key), |b| - |a|;
      if i < |a| then j == d + i else j < d || j == |b|
  {
    var i, j, d := Find(a, key), Find(b, key), |b| - |a|;
    assert forall k | d <= k < |b| :: b[k].key == a[k - d].key;
    if i < |a| {
      assert j < |b| && b[j].key == b[d + i].key;
    }
  }

  lemma BothLose(a: seq<Raw>, b: seq<Raw>, i: nat)
    requires Recent(a, b) && i < |a|
    ensures Recent(Without(a, i), Without(b, |b| - |a| + i))
  {
    var j := |b| - |a| + i;
    assert forall k | 0 <= k < |a| - 1 :: Without(a, i)[k] == a[if k < i then k else k + 1];
    assert forall k | 0 <= k < |b| - 1 :: Without(b, j)[k] == b[if k < j then k else k + 1];
  }

  lemma OlderLost(a: seq<Raw>, b: seq<Raw>, j: nat)
    requires Recent(a, b) && j < |b| - |a|
    ensures Recent(a, Without(b, j))
  {
    assert forall k | j <= k < |b| - 1 :: Without(b, j)[k] == b[k + 1];
  }

  lemma RemovedRecent(a: seq<Raw>, b: seq<Raw>, key: string)
    requires Recent(a, b) && KeysDiffer(b)
    ensures Recent(Removed(a, key), Removed(b, key))
  {
    var i, j := Find(a, key), Find(b, key);
    FindRecent(a, b, key);
    if i < |a| {
      BothLose(a, b, i);
    } else if j < |b| {
      OlderLost(a, b, j);
    }
  }

  lemma AppendedRecent(a: seq<Raw>, b: seq<Raw>, r: Raw, r': Raw)
    requires Recent(a, b) && r.key == r'.key
    ensures Recent(a + [r], b + [r'])
  {
  }

  lemma CutRecent(a: seq<Raw>, b: seq<Raw>, i: nat, j: nat)
    requires Recent(a, b) && i <= |a| && j <= |b| && |a| - i <= |b| - j
    ensures Recent(a[i..], b[j..])
  {
  }

  /** The entries once a statement is given back. */
  function Returned(s: seq<Raw>, raw: Raw, capacity: nat): seq<Raw> {
    if raw.ptr == 0 || raw.key.None? then s
    else
      var t := Removed(s, raw.key.value) + [raw];
      if |t| > capacity then t[1..] else t
  }

  lemma ReturnedRecent(a: seq<Raw>, b: seq<Raw>, raw: Raw, raw': Raw, n: nat, m: nat)
    requires Recent(a, b) && KeysDiffer(b) && |a| <= n <= m && |b| <= m
    requires raw.key == raw'.key && (raw.ptr == 0 <==> raw'.ptr == 0)
    ensures Recent(Returned(a, raw, n), Returned(b, raw', m))
  {
    if raw.ptr != 0 && raw.key.Some? {
      var key := raw.key.value;
      RemovedRecent(a, b, key);
      var s, t := Removed(a, key) + [raw], Removed(b, key) + [raw'];
      AppendedRecent(Removed(a, key), Removed(b, key), raw, raw');
      CutRecent(s, t, if |s| > n then 1 else 0, if |t| > m then 1 else 0);
    }
  }

  /** Callers hold like statements: of the same key, and null together. */
  ghost predicate LiveAlike(live: map<nat, Held>, live': map<nat, Held>) {
    && live.Keys == live'.Keys
    && forall x | x in live ::
         live[x].raw.key == live'[x].raw.key && (live[x].raw.ptr == 0 <==> live'[x].raw.ptr == 0)
  }

  /** Two connections whose callers hold like statements, the second with the larger cache. */
  ghost predicate Alike<D, C>(w: World<D, C>, w': World<D, C>) {
    && LiveAlike(w.live, w'.live)
    && w.c.capacity <= w'.c.capacity
    && Recent(w.c.entries, w'.c.entries)
  }

  lemma HoldAlike(live: map<nat, Held>, live': map<nat, Held>, x: nat, h: Held, h': Held)
    requires LiveAlike(live, live')
    requires h.raw.key == h'.raw.key && (h.raw.ptr == 0 <==> h'.raw.ptr == 0)
    ensures LiveAlike(live[x := h], live'[x := h'])
  {
  }

  /** A cached prepare takes the key out, and gives a statement or not as the text compiles or not. */
  lemma TakenStatement<D, C>(e: Engine<D, C>, w: World<D, C>, x: nat, sql: string)
    requires Inv(e, w) && HitCompiles(e, w, PrepareCached(x, sql)) && x !in w.live
    ensures var (c, r) := Get(e, w.c, sql); var key := Trim(sql);
      && c.capacity == w.c.capacity && c.entries == Removed(w.c.entries, key)
      && match e.compile(w.c.lib.db, key)
         case Rejected(_, _) => r.Failure?
         case NoStatement => r == Success(Raw(0, Some(key)))
         case Program => r.Success? && r.value.ptr != 0 && r.value.key == Some(key)
  {
    var i := Find(w.c.entries, Trim(sql));
    if i < |w.c.entries| {
      assert w.c.entries[i].ptr in w.c.lib.open && 0 !in w.c.lib.open;
    }
  }

  lemma KeepAlike<D, C>(w: World<D, C>, w': World<D, C>, c: Cache<D, C>, c': Cache<D, C>, x: nat,
                        r: Result<Raw, Error>, r': Result<Raw, Error>)
    requires LiveAlike(w.live, w'.live) && c.capacity <= c'.capacity && Recent(c.entries, c'.entries)
    requires r.Success? <==> r'.Success?
    requires r.Success? ==> r.value.key == r'.value.key && (r.value.ptr == 0 <==> r'.value.ptr == 0)
    ensures Alike(Keep(w, c, x, r).0, Keep(w', c', x, r').0)
  {
    if r.Success? {
      HoldAlike(w.live, w'.live, x, Held(r.value, Closed()), Held(r'.value, Closed()));
    }
  }

  lemma CachedPrepareAlike<D, C>(e: Engine<D, C>, w: World<D, C>, w': World<D, C>, x: nat, sql: string)
    requires Inv(e, w) && Inv(e, w') && Alike(w, w') && w.c.lib.db == w'.c.lib.db
    requires HitCompiles(e, w, PrepareCached(x, sql)) && HitCompiles(e, w', PrepareCached(x, sql))
    requires x !in w.live
    ensures var (c, r) := Get(e, w.c, sql);
      var (c', r') := Get(e, w'.c, sql);
      Alike(Keep(w, c, x, r).0, Keep(w', c', x, r').0)
  {
    TakenStatement(e, w, x, sql);
    TakenStatement(e, w', x, sql);
    EntriesFit(e, w');
    RemovedRecent(w.c.entries, w'.c.entries, Trim(sql));
    var (c, r) := Get(e, w.c, sql);
    var (c', r') := Get(e, w'.c, sql);
    KeepAlike(w, w', c, c', x, r, r');
  }

  lemma PrepareAlike<D, C>(e: Engine<D, C>, w: World<D, C>, w': World<D, C>, op: Op<D>)
    requires Inv(e, w) && Inv(e, w') && Alike(w, w') && w.c.lib.db == w'.c.lib.db
    requires HitCompiles(e, w, op) && HitCompiles(e, w', op)
    requires (op.Prepare? || op.PrepareCached?) && op.x !in w.live
    ensures Alike(Step(e, w, op).0, Step(e, w', op).0)
  {
    if op.PrepareCached? {
      CachedPrepareAlike(e, w, w', op.x, op.sql);
    }
  }

  lemma DropEntries<D, C>(e: Engine<D, C>, w: World<D, C>, x: nat)
    requires x in w.live
    ensures var w1 := Step(e, w, Drop(x)).0;
      && w1.live == w.live - {x} && w1.c.capacity == w.c.capacity
      && w1.c.entries == Returned(w.c.entries, w.live[x].raw, w.c.capacity)
  {
    var w1, raw := LetGo(e, w, x), w.live[x].raw;
    assert Step(e, w, Drop(x)).0 == World(GiveUp(w1.c, raw), w.live - {x});
    assert w1.c.entries == w.c.entries && w1.c.capacity == w.c.capacity;
  }

  lemma EntriesFit<D, C>(e: Engine<D, C>, w: World<D, C>)
    requires Inv(e, w)
    ensures |w.c.entries| <= w.c.capacity && KeysDiffer(w.c.entries)
  {
  }

  lemma DropAlike<D, C>(e: Engine<D, C>, w: World<D, C>, w': World<D, C>, x: nat)
    requires Inv(e, w) && Inv(e, w') && Alike(w, w') && x in w.live
    ensures Alike(Step(e, w, Drop(x)).0, Step(e, w', Drop(x)).0)
  {
    EntriesFit(e, w);
    EntriesFit(e, w');
    DropEntries(e, w, x);
    DropEntries(e, w', x);
    ReturnedRecent(w.c.entries, w'.c.entries, w.live[x].raw, w'.live[x].raw, w.c.capacity, w'.c.capacity);
    assert LiveAlike(w.live - {x}, w'.live - {x});
  }

  /** Using a statement moves nothing in or out of the cache and changes no one's raw statement. */
  lemma OnEntries<D, C>(e: Engine<D, C>, w: World<D, C>, x: nat, u: Use)
    requires x in w.live
    ensures var w1 := Step(e, w, On(x, u)).0;
      && w1.c.entries == w.c.entries && w1.c.capacity == w.c.capacity
      && x in w1.live && w1.live == w.live[x := w1.live[x]] && w1.live[x].raw == w.live[x].raw
  {
    var h := w.live[x];
    var (v, rows, seen) := UseStmt(e, At(w.c.lib, h.raw.ptr), h.rows, u);
    assert Step(e, w, On(x, u)).0 == World(w.c.(lib := Put(w.c.lib, h.raw.ptr, v)), w.live[x := h.(rows := rows)]);
  }

  lemma OnAlike<D, C>(e: Engine<D, C>, w: World<D, C>, w': World<D, C>, x: nat, u: Use)
    requires Alike(w, w') && x in w.live
    ensures Alike(Step(e, w, On(x, u)).0, Step(e, w', On(x, u)).0)
  {
    OnEntries(e, w, x, u);
    OnEntries(e, w', x, u);
    HoldAlike(w.live, w'.live, x, Step(e, w, On(x, u)).0.live[x], Step(e, w', On(x, u)).0.live[x]);
  }

  lemma DiscardAlike<D, C>(e: Engine<D, C>, w: World<D, C>, w': World<D, C>, x: nat)
    requires Alike(w, w') && x in w.live
    ensures Alike(Step(e, w, Discard(x)).0, Step(e, w', Discard(x)).0)
  {
    assert LiveAlike(w.live - {x}, w'.live - {x});
  }

  lemma ResizedRecent<D, C>(c: Cache<D, C>, c': Cache<D, C>, n: nat)
    requires Recent(c.entries, c'.entries)
    ensures Recent(SetCapacity(c, n).entries, SetCapacity(c', n).entries)
    ensures SetCapacity(c, n).capacity == SetCapacity(c', n).capacity == n
  {
    var a, b := c.entries, c'.entries;
    var i, j := if n < |a| then |a| - n else 0, if n < |b| then |b| - n else 0;
    assert SetCapacity(c, n).entries == a[i..] && SetCapacity(c', n).entries == b[j..];
    CutRecent(a, b, i, j);
  }

  lemma StepAlike<D, C>(e: Engine<D, C>, w: World<D, C>, w': World<D, C>, op: Op<D>)
    requires Inv(e, w) && Inv(e, w') && Alike(w, w') && w.c.lib.db == w'.c.lib.db
    requires HitCompiles(e, w, op) && HitCompiles(e, w', op)
    ensures Alike(Step(e, w, op).0, Step(e, w', op).0)
  {
    if (op.Prepare? || op.PrepareCached?) && op.x !in w.live {
      PrepareAlike(e, w, w', op);
    } else if op.On? && op.x in w.live {
      OnAlike(e, w, w', op.x, op.use);
    } else if op.Drop? && op.x in w.live {
      DropAlike(e, w, w', op.x);
    } else if op.Discard? && op.x in w.live {
      DiscardAlike(e, w, w', op.x);
    } else if op.Resize? {
      ResizedRecent(w.c, w'.c, op.capacity);
      assert Step(e, w, op).0 == World(SetCapacity(w.c, op.capacity), w.live);
      assert Step(e, w', op).0 == World(SetCapacity(w'.c, op.capacity), w'.live);
    }
  }

  lemma {:induction false} RunAlike<D, C>(
    e: Engine<D, C>, w: World<D, C>, w': World<D, C>, f: Plain<D, C>, ops: seq<Op<D>>)
    requires Inv(e, w) && Inv(e, w') && Same(w, f) && Same(w', f) && Alike(w, w')
    requires HitsCompile(e, w, ops) && HitsCompile(e, w', ops)
    ensures Alike(Run(e, w, ops).0, Run(e, w', ops).0)
    decreases |ops|
  {
    if ops != [] {
      StepKeeps(e, w, ops[0]);
      StepKeeps(e, w', ops[0]);
      assert 0 !in Step(e, w, ops[0]).0.c.lib.open && 0 !in Step(e, w', ops[0]).0.c.lib.open;
      StepAgrees(e, w, f, ops[0]);
      StepAgrees(e, w', f, ops[0]);
      StepAlike(e, w, w', ops[0]);
      RunAlike(e, Step(e, w, ops[0]).0, Step(e, w', ops[0]).0, PlainStep(e, f, ops[0]).0, ops[1..]);
    }
  }

  /**
   * Least recently used, over whole runs: what a cache of capacity `n` holds is
   * always the most recently returned part of what one of capacity `m >= n`
   * holds after the same run, so the larger cache hits whenever the smaller does.
   */
  lemma LargerCacheHitsToo<D, C>(e: Engine<D, C>, db: D, n: nat, m: nat, ops: seq<Op<D>>, sql: string)
    requires n <= m
    requires HitsCompile(e, Start(db, n), ops) && HitsCompile(e, Start(db, m), ops)
    ensures var a, b := Run(e, Start(db, n), ops).0.c.entries, Run(e, Start(db, m), ops).0.c.entries;
      && Recent(a, b)
      && (Find(a, Trim(sql)) < |a| ==> Find(b, Trim(sql)) < |b|)
  {
    var s, s' := Start<D, C>(db, n), Start<D, C>(db, m);
    assert Inv(e, s) && Inv(e, s');
    RunAlike(e, s, s', Plain(db, map[]), ops);
    RunKeeps(e, s', ops);
    FindRecent(Run(e, s, ops).0.c.entries, Run(e, s', ops).0.c.entries, Trim(sql));
  }

  // ---- What is kept, and that it is used ------------------------------------------------

  ghost predicate HasKey(s: seq<Raw>, key: string) {
    exists i | 0 <= i < |s| :: s[i].key == Some(key)
  }

  /** Resizing keeps as many of the most recently returned as fit, in order. */
  lemma ResizeKeepsTheYoungest<D, C>(c: Cache<D, C>, n: nat)
    ensures var c' := SetCapacity(c, n);
      && c'.capacity == n && |c'.entries| == (if |c.entries| < n then |c.entries| else n)
      && forall i | 0 <= i < |c'.entries| :: c'.entries[i] == c.entries[|c.entries| - |c'.entries| + i]
  {
  }

  lemma RemovedKeys(s: seq<Raw>, key: string, other: string)
    requires other != key
    ensures HasKey(Removed(s, key), other) <==> HasKey(s, other)
  {
    var i, t := Find(s, key), Removed(s, key);
    if i < |s| {
      forall j | 0 <= j < |s| && j != i
        ensures t[if j < i then j else j - 1] == s[j]
      {
      }
      if j :| 0 <= j < |s| && s[j].key == Some(other) {
        assert t[if j < i then j else j - 1].key == Some(other);
      }
    }
  }

  /**
   * A statement returned to a cache with room for any is its youngest entry. Of
   * the other keys only the oldest can go, and only if the cache was full and the
   * key is new to it.
   */
  lemma ReturnedIsYoungest<D, C>(c: Cache<D, C>, raw: Raw, other: string)
    requires raw.ptr != 0 && raw.key.Some? && other != raw.key.value
    requires KeysDiffer(c.entries) && |c.entries| <= c.capacity
    ensures var entries := CacheStmt(c, raw).entries;
      var pushedOut := |c.entries| == c.capacity && !HasKey(c.entries, raw.key.value);
      && (c.capacity == 0 ==> entries == [])
      && (c.capacity > 0 ==> entries != [] && entries[|entries| - 1] == raw)
      && (HasKey(entries, other)
          <==> HasKey(c.entries, other) && !(pushedOut && c.entries[0].key == Some(other)))
  {
    var key, s := raw.key.value, c.entries;
    var t := Removed(s, key) + [raw];
    var entries := CacheStmt(c, raw).entries;
    assert entries == Returned(s, raw, c.capacity);
    assert HasKey(s, key) <==> Find(s, key) < |s|;
    RemovedKeys(s, key, other);
    AppendedKeys(Removed(s, key), raw, other);
    if |t| > c.capacity {
      assert t == s + [raw];
      if s != [] {
        FirstGone(s, raw, other);
      }
    }
  }

  lemma AppendedKeys(s: seq<Raw>, raw: Raw, other: string)
    requires raw.key != Some(other)
    ensures HasKey(s + [raw], other) <==> HasKey(s, other)
  {
    if i :| 0 <= i < |s| && s[i].key == Some(other) {
      assert (s + [raw])[i] == s[i];
    }
  }

  lemma FirstGone(s: seq<Raw>, raw: Raw, other: string)
    requires s != [] && KeysDiffer(s) && raw.key != Some(other)
    ensures HasKey((s + [raw])[1..], other) <==> HasKey(s, other) && s[0].key != Some(other)
  {
    var t := (s + [raw])[1..];
    assert t == s[1..] + [raw];
    AppendedKeys(s[1..], raw, other);
    if i :| 1 <= i < |s| && s[i].key == Some(other) {
      assert s[1..][i - 1] == s[i];
    }
    if i :| 0 <= i < |s[1..]| && s[1..][i].key == Some(other) {
      assert s[i + 1].key == Some(other);
    }
  }

  /**
   * The cache is used: in any state that runs reach, a cached statement dropped and
   * asked for again by its text, padded or not, is the same handle, and nothing is
   * compiled. With no room in the cache it is finalized instead.
   */
  lemma DroppedIsReused<D, C>(e: Engine<D, C>, w: World<D, C>, x: nat, sql: string)
    requires Inv(e, w) && x in w.live && w.live[x].raw.ptr != 0 && w.live[x].raw.key == Some(Trim(sql))
    ensures var w1 := Step(e, w, Drop(x)).0;
      var (w2, seen) := Step(e, w1, PrepareCached(x, sql));
      && (w.c.capacity > 0 ==>
            && seen == Prepared(false) && x in w2.live && w2.live[x].raw == w.live[x].raw
            && w2.c.lib.created == w.c.lib.created)
      && (w.c.capacity == 0 ==> w.live[x].raw.ptr in w1.c.lib.finalized)
  {
    var raw, w1 := w.live[x].raw, Step(e, w, Drop(x)).0;
    EntriesFit(e, w);
    DropEntries(e, w, x);
    StepKeeps(e, w, Drop(x));
    EntriesFit(e, w1);
    DropMakesNothing(e, w, x);
    if w.c.capacity > 0 {
      var n := |w1.c.entries| - 1;
      assert w1.c.entries[n] == raw;
      assert Find(w1.c.entries, Trim(sql)) == n;
    } else {
      assert w.c.entries == [] && w1.c.entries == [];
      HeldIsAccounted(e, w, x);
      HandlesGone(e, w1, raw.ptr);
    }
  }

  lemma {:induction false} EvictMakesNothing<D, C>(c: Cache<D, C>, n: nat)
    requires n <= |c.entries|
    ensures Evict(c, n).lib.created == c.lib.created
    decreases n
  {
    if n > 0 {
      EvictMakesNothing(Cache(CFinalize(c.lib, c.entries[0].ptr), c.entries[1..], c.capacity), n - 1);
    }
  }

  lemma InsertMakesNothing<D, C>(c: Cache<D, C>, key: string, raw: Raw)
    ensures Insert(c, key, raw).lib.created == c.lib.created
  {
    var i := Find(c.entries, key);
    var c1 := if i < |c.entries| then
      Cache(CFinalize(c.lib, c.entries[i].ptr), Without(c.entries, i) + [raw], c.capacity)
    else c.(entries := c.entries + [raw]);
    EvictMakesNothing(c1, 1);
  }

  lemma DropMakesNothing<D, C>(e: Engine<D, C>, w: World<D, C>, x: nat)
    requires x in w.live
    ensures Step(e, w, Drop(x)).0.c.lib.created == w.c.lib.created
  {
    var c, raw := LetGo(e, w, x).c, w.live[x].raw;
    if raw.ptr != 0 && raw.key.Some? {
      InsertMakesNothing(c.(lib := Put(c.lib, raw.ptr, CClear(At(c.lib, raw.ptr)))), raw.key.value, raw);
    }
  }

  lemma HeldIsAccounted<D, C>(e: Engine<D, C>, w: World<D, C>, x: nat)
    requires Inv(e, w) && x in w.live && w.live[x].raw.ptr != 0
    ensures 1 <= w.live[x].raw.ptr <= w.c.lib.created && w.live[x].raw.ptr in Out(w.live)
    ensures w.live[x].raw.ptr !in Out(w.live - {x})
  {
    OutWithout(w.live, x);
  }

  /** A handle in no one's hands and not in the cache has been finalized. */
  lemma HandlesGone<D, C>(e: Engine<D, C>, w: World<D, C>, p: nat)
    requires Inv(e, w) && 1 <= p <= w.c.lib.created && w.c.entries == [] && p !in Out(w.live)
    ensures p in w.c.lib.finalized
  {
  }
}
