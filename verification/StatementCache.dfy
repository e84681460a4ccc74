// The prepared-statement cache of a connection: each operation as a function on
// the cache and the handle table, what every cache state keeps, and the class.
module StatementCaches {
  import opened Wrappers
  import opened Sqlite
  import opened Statements

  // ---- Keys -------------------------------------------------------------

  /** Unicode White_Space, which is what trimming removes. */
  predicate IsWhitespace(c: char) {
    var n := c as int;
    || 0x9 <= n <= 0xD || n == 0x20 || n == 0x85 || n == 0xA0 || n == 0x1680
    || 0x2000 <= n <= 0x200A || n == 0x2028 || n == 0x2029 || n == 0x202F || n == 0x205F || n == 0x3000
  }

  function TrimStart(s: string): string {
    if s != [] && IsWhitespace(s[0]) then TrimStart(s[1..]) else s
  }

  function TrimEnd(s: string): string {
    if s != [] && IsWhitespace(s[|s| - 1]) then TrimEnd(s[..|s| - 1]) else s
  }

  function Trim(s: string): string {
    TrimEnd(TrimStart(s))
  }

  predicate Blank(s: string) {
    forall i | 0 <= i < |s| :: IsWhitespace(s[i])
  }

  lemma {:induction false} TrimStartPadded(a: string, s: string)
    requires Blank(a)
    ensures TrimStart(a + s) == TrimStart(s)
  {
    if a == [] {
      assert a + s == s;
    } else {
      assert (a + s)[1..] == a[1..] + s;
      TrimStartPadded(a[1..], s);
    }
  }

  lemma {:induction false} TrimEndPadded(s: string, b: string)
    requires Blank(b)
    ensures TrimEnd(s + b) == TrimEnd(s)
  {
    if b == [] {
      assert s + b == s;
    } else {
      assert (s + b)[..|s + b| - 1] == s + b[..|b| - 1];
      TrimEndPadded(s, b[..|b| - 1]);
    }
  }

  lemma {:induction false} TrimStartBefore(s: string, b: string)
    requires Blank(b)
    ensures TrimStart(s + b) == if TrimStart(s) == [] then [] else TrimStart(s) + b
  {
    if s == [] {
      assert s + b == b && b + [] == b;
      TrimStartPadded(b, []);
    } else if IsWhitespace(s[0]) {
      assert (s + b)[1..] == s[1..] + b;
      TrimStartBefore(s[1..], b);
    }
  }

  /** Texts that differ only in the blanks around them share a key. */
  lemma PaddingIsIgnored(a: string, s: string, b: string)
    requires Blank(a) && Blank(b)
    ensures Trim(a + s + b) == Trim(s)
  {
    assert a + s + b == a + (s + b);
    TrimStartPadded(a, s + b);
    TrimStartBefore(s, b);
    TrimEndPadded(TrimStart(s), b);
  }

  lemma {:induction false} TrimStartCuts(s: string) returns (i: nat)
    ensures i <= |s| && TrimStart(s) == s[i..] && Blank(s[..i])
    ensures i < |s| ==> !IsWhitespace(s[i])
  {
    i := 0;
    if s != [] && IsWhitespace(s[0]) {
      var k := TrimStartCuts(s[1..]);
      i := k + 1;
      assert s[1..][k..] == s[i..] && s[..i] == [s[0]] + s[1..][..k];
    }
  }

  lemma {:induction false} TrimEndCuts(s: string) returns (j: nat)
    ensures j <= |s| && TrimEnd(s) == s[..j] && Blank(s[j..])
    ensures j > 0 ==> !IsWhitespace(s[j - 1])
  {
    j := |s|;
    if s != [] && IsWhitespace(s[|s| - 1]) {
      j := TrimEndCuts(s[..|s| - 1]);
      assert s[..|s| - 1][..j] == s[..j] && s[j..] == s[..|s| - 1][j..] + [s[|s| - 1]];
    }
  }

  /** A key is what is left of its text without the blanks at either end, and no less. */
  lemma TrimExactly(s: string) returns (a: string, b: string)
    ensures s == a + Trim(s) + b && Blank(a) && Blank(b)
    ensures Trim(s) != [] ==> !IsWhitespace(Trim(s)[0]) && !IsWhitespace(Trim(s)[|Trim(s)| - 1])
  {
    var i := TrimStartCuts(s);
    var j := TrimEndCuts(s[i..]);
    a, b := s[..i], s[i..][j..];
    assert s == s[..i] + s[i..] && s[i..] == s[i..][..j] + s[i..][j..];
  }

  // ---- The cache as a value ---------------------------------------------

  /** Entries are in order of use, the oldest first. */
  datatype Cache<+D, +C> = Cache(lib: Lib<D, C>, entries: seq<Raw>, capacity: nat)

  /** The position of the entry with this key, or the number of entries. */
  function Find(entries: seq<Raw>, key: string): (i: nat)
    ensures i <= |entries|
    ensures i < |entries| ==> entries[i].key == Some(key)
    ensures forall j | 0 <= j < i :: entries[j].key != Some(key)
  {
    if entries == [] || entries[0].key == Some(key) then 0 else 1 + Find(entries[1..], key)
  }

  function Without(entries: seq<Raw>, i: nat): seq<Raw>
    requires i < |entries|
  {
    entries[..i] + entries[i + 1..]
  }

  function Get<D, C>(e: Engine<D, C>, c: Cache<D, C>, sql: string): (Cache<D, C>, Result<Raw, Error>) {
    var key := Trim(sql);
    var i := Find(c.entries, key);
    if i < |c.entries| then
      (c.(entries := Without(c.entries, i)), Success(Raw(c.entries[i].ptr, Some(key))))
    else
      var (l, r) := CPrepare(e, c.lib, key);
      (c.(lib := l), match r case Failure(err) => Failure(err) case Success(p) => Success(Raw(p, Some(key))))
  }

  /** Finalizes the oldest `n` entries. */
  function Evict<D, C>(c: Cache<D, C>, n: nat): (r: Cache<D, C>)
    requires n <= |c.entries|
    ensures r.entries == c.entries[n..] && r.capacity == c.capacity
    decreases n
  {
    if n == 0 then c
    else Evict(Cache(CFinalize(c.lib, c.entries[0].ptr), c.entries[1..], c.capacity), n - 1)
  }

  /** The map's insert: an old value under the same key goes, the new one is the youngest. */
  function Insert<D, C>(c: Cache<D, C>, key: string, raw: Raw): Cache<D, C> {
    var i := Find(c.entries, key);
    var c1 :=
      if i < |c.entries| then
        Cache(CFinalize(c.lib, c.entries[i].ptr), Without(c.entries, i) + [raw], c.capacity)
      else c.(entries := c.entries + [raw]);
    if |c1.entries| > c1.capacity then Evict(c1, 1) else c1
  }

  function CacheStmt<D, C>(c: Cache<D, C>, raw: Raw): Cache<D, C> {
    if raw.ptr == 0 then c
    else
      var cleared := c.(lib := Put(c.lib, raw.ptr, CClear(At(c.lib, raw.ptr))));
      match raw.key
      case Some(key) => Insert(cleared, key, raw)
      case None => cleared.(lib := CFinalize(cleared.lib, raw.ptr))
  }

  function SetCapacity<D, C>(c: Cache<D, C>, n: nat): Cache<D, C> {
    Evict(c, if n < |c.entries| then |c.entries| - n else 0).(capacity := n)
  }

  function Flush<D, C>(c: Cache<D, C>): Cache<D, C> {
    Evict(c, |c.entries|)
  }

  // ---- What every cache state keeps --------------------------------------

  function Ptrs(entries: seq<Raw>): set<nat> {
    set i | 0 <= i < |entries| :: entries[i].ptr
  }

  /** As freshly compiled from `text`. */
  predicate Fresh<D, C(==)>(e: Engine<D, C>, s: Stmt<C>, text: string) {
    s == Stmt(text, Nulls(e.paramCount(text)), e.start)
  }

  ghost predicate Distinct<T(!new)>(s: seq<T>) {
    forall i, j | 0 <= i < j < |s| :: s[i] != s[j]
  }

  /** Handles 1 to `created` are each open or finalized, none finalized twice, none misused. */
  ghost predicate Accounted<D, C>(l: Lib<D, C>) {
    && !l.faulted
    && Distinct(l.finalized)
    && (forall p :: p in l.open || p in l.finalized <==> 1 <= p <= l.created)
    && (forall p | p in l.open :: p !in l.finalized)
  }

  ghost predicate EntriesOk<D, C>(e: Engine<D, C>, c: Cache<D, C>) {
    && |c.entries| <= c.capacity
    && (forall i | 0 <= i < |c.entries| ::
          && c.entries[i].ptr in c.lib.open && c.entries[i].key.Some?
          && Fresh(e, c.lib.open[c.entries[i].ptr], c.entries[i].key.value))
    && (forall i, j | 0 <= i < j < |c.entries| ::
          c.entries[i].ptr != c.entries[j].ptr && c.entries[i].key != c.entries[j].key)
  }

  /** `out` are the open handles that the cache does not own. */
  ghost predicate CacheInv<D, C>(e: Engine<D, C>, c: Cache<D, C>, out: set<nat>) {
    && Accounted(c.lib)
    && EntriesOk(e, c)
    && c.lib.open.Keys == Ptrs(c.entries) + out
    && Ptrs(c.entries) !! out
  }

  /** The handles in `out` and the database are as they were. */
  ghost predicate Untouched<D, C>(c: Cache<D, C>, c': Cache<D, C>, out: set<nat>) {
    && c'.lib.db == c.lib.db && c'.lib.created >= c.lib.created
    && forall p | p in out :: p in c.lib.open && p in c'.lib.open && c'.lib.open[p] == c.lib.open[p]
  }

  lemma UntouchedTwice<D, C>(c: Cache<D, C>, c': Cache<D, C>, c'': Cache<D, C>, out: set<nat>)
    requires Untouched(c, c', out) && Untouched(c', c'', out)
    ensures Untouched(c, c'', out)
  {
  }

  lemma PtrsWithout(entries: seq<Raw>, i: nat)
    requires i < |entries|
    requires forall a, b | 0 <= a < b < |entries| :: entries[a].ptr != entries[b].ptr
    ensures Ptrs(Without(entries, i)) == Ptrs(entries) - {entries[i].ptr}
  {
    var w := Without(entries, i);
    forall p | p in Ptrs(entries) - {entries[i].ptr}
      ensures p in Ptrs(w)
    {
      var j :| 0 <= j < |entries| && entries[j].ptr == p;
      assert w[if j < i then j else j - 1] == entries[j];
    }
  }

  lemma FinalizeKeeps<D, C>(e: Engine<D, C>, c: Cache<D, C>, out: set<nat>, p: nat)
    requires CacheInv(e, c, out) && p in out
    ensures var c' := c.(lib := CFinalize(c.lib, p));
      CacheInv(e, c', out - {p}) && Untouched(c, c', out - {p})
  {
    var c' := c.(lib := CFinalize(c.lib, p));
    assert p !in Ptrs(c.entries);
    assert forall i | 0 <= i < |c.entries| :: c.entries[i].ptr in Ptrs(c.entries);
  }

  /** Taking an entry out of the cache only moves its handle to `out`. */
  lemma TakeKeeps<D, C>(e: Engine<D, C>, c: Cache<D, C>, out: set<nat>, i: nat)
    requires CacheInv(e, c, out) && i < |c.entries|
    ensures CacheInv(e, c.(entries := Without(c.entries, i)), out + {c.entries[i].ptr})
    ensures c.entries[i].ptr !in out && c.entries[i].ptr != 0
  {
    PtrsWithout(c.entries, i);
    assert c.entries[i].ptr in Ptrs(c.entries);
  }

  /** Dropping an entry finalizes its handle and nothing else. */
  lemma DropEntryKeeps<D, C>(e: Engine<D, C>, c: Cache<D, C>, out: set<nat>, i: nat)
    requires CacheInv(e, c, out) && i < |c.entries|
    ensures var c' := Cache(CFinalize(c.lib, c.entries[i].ptr), Without(c.entries, i), c.capacity);
      CacheInv(e, c', out) && Untouched(c, c', out)
  {
    var p := c.entries[i].ptr;
    TakeKeeps(e, c, out, i);
    FinalizeKeeps(e, c.(entries := Without(c.entries, i)), out + {p}, p);
    assert out + {p} - {p} == out;
  }

  lemma {:induction false} EvictKeeps<D, C>(e: Engine<D, C>, c: Cache<D, C>, out: set<nat>, n: nat)
    requires CacheInv(e, c, out) && n <= |c.entries|
    ensures CacheInv(e, Evict(c, n), out) && Untouched(c, Evict(c, n), out)
    decreases n
  {
    if n > 0 {
      DropEntryKeeps(e, c, out, 0);
      assert Without(c.entries, 0) == c.entries[1..];
      var rest := Cache(CFinalize(c.lib, c.entries[0].ptr), c.entries[1..], c.capacity);
      EvictKeeps(e, rest, out, n - 1);
      UntouchedTwice(c, rest, Evict(rest, n - 1), out);
      assert Evict(c, n) == Evict(rest, n - 1);
    }
  }

  lemma {:induction false} EvictNext<D, C>(c: Cache<D, C>, n: nat)
    requires n < |c.entries|
    ensures Evict(Evict(c, n), 1) == Evict(c, n + 1)
    decreases n
  {
    if n > 0 {
      EvictNext(Cache(CFinalize(c.lib, c.entries[0].ptr), c.entries[1..], c.capacity), n - 1);
    }
  }

  lemma {:induction false} DiscardedKeeps<D, C>(e: Engine<D, C>, c: Cache<D, C>, out: set<nat>, n: nat)
    requires CacheInv(e, c, out)
    ensures var c' := c.(lib := Discarded(c.lib, n));
      CacheInv(e, c', out) && Untouched(c, c', out)
    decreases n
  {
    if n > 0 {
      var l := c.lib.(created := c.lib.created + 1, finalized := c.lib.finalized + [c.lib.created + 1]);
      assert c.lib.created + 1 !in c.lib.finalized;
      DiscardedKeeps(e, c.(lib := l), out, n - 1);
    }
  }

  lemma PrepareKeeps<D, C>(e: Engine<D, C>, c: Cache<D, C>, out: set<nat>, text: string)
    requires CacheInv(e, c, out)
    ensures var (l, r) := CPrepare(e, c.lib, text);
      var c' := c.(lib := l);
      && Untouched(c, c', out)
      && (r == Success(0) || r.Failure? ==> CacheInv(e, c', out))
      && (r.Success? && r.value != 0 ==>
            && CacheInv(e, c', out + {r.value}) && r.value !in out
            && Fresh(e, l.open[r.value], text))
  {
    var compiled := e.compile(c.lib.db, text);
    if compiled.Rejected? {
      DiscardedKeeps(e, c, out, compiled.made);
    }
    assert forall i | 0 <= i < |c.entries| :: c.entries[i].ptr in Ptrs(c.entries);
  }

  /** A statement handed out is as freshly compiled from the key, whichever way it came. */
  lemma GetGivesFresh<D, C>(e: Engine<D, C>, c: Cache<D, C>, out: set<nat>, sql: string)
    requires CacheInv(e, c, out)
    ensures var (c', r) := Get(e, c, sql);
      && Untouched(c, c', out)
      && (r.Failure? || r.value.ptr == 0 ==> c'.entries == c.entries && CacheInv(e, c', out))
      && (r.Success? ==> r.value.key == Some(Trim(sql)))
      && (r.Success? && r.value.ptr != 0 ==>
            && CacheInv(e, c', out + {r.value.ptr}) && r.value.ptr !in out
            && Fresh(e, c'.lib.open[r.value.ptr], Trim(sql)))
  {
    var i := Find(c.entries, Trim(sql));
    if i < |c.entries| {
      TakeKeeps(e, c, out, i);
    } else {
      PrepareKeeps(e, c, out, Trim(sql));
    }
  }

  /** A resting statement compiled from its own key may go back. */
  ghost predicate Returnable<D, C>(e: Engine<D, C>, l: Lib<D, C>, raw: Raw) {
    && raw.ptr in l.open && raw.key.Some?
    && l.open[raw.ptr].text == raw.key.value
    && l.open[raw.ptr].cursor == e.start
    && |l.open[raw.ptr].bindings| == e.paramCount(raw.key.value)
  }

  lemma AppendKeeps<D, C>(e: Engine<D, C>, c: Cache<D, C>, out: set<nat>, raw: Raw)
    requires CacheInv(e, c, out) && raw.ptr in out
    requires raw.key.Some? && Fresh(e, c.lib.open[raw.ptr], raw.key.value)
    requires Find(c.entries, raw.key.value) == |c.entries|
    requires |c.entries| < c.capacity
    ensures CacheInv(e, c.(entries := c.entries + [raw]), out - {raw.ptr})
  {
    PtrsAppend(c.entries, raw);
    assert raw.ptr !in Ptrs(c.entries);
    assert forall i | 0 <= i < |c.entries| :: c.entries[i].ptr in Ptrs(c.entries);
  }

  lemma PtrsAppend(entries: seq<Raw>, raw: Raw)
    ensures Ptrs(entries + [raw]) == Ptrs(entries) + {raw.ptr}
  {
    var longer := entries + [raw];
    assert longer[|entries|] == raw;
    forall p | p in Ptrs(entries)
      ensures p in Ptrs(longer)
    {
      var i :| 0 <= i < |entries| && entries[i].ptr == p;
      assert longer[i].ptr == p;
    }
  }

  /** Changing the database and one handle the cache does not own leaves the cache as it was. */
  lemma PutKeeps<D, C>(e: Engine<D, C>, c: Cache<D, C>, out: set<nat>, p: nat, v: View<D, C>)
    requires CacheInv(e, c, out) && (v.st.Some? <==> p in c.lib.open) && (p == 0 || p in out)
    ensures CacheInv(e, c.(lib := Put(c.lib, p, v)), out)
  {
    assert forall i | 0 <= i < |c.entries| :: c.entries[i].ptr in Ptrs(c.entries);
    assert Put(c.lib, p, v).open.Keys == c.lib.open.Keys;
  }

  lemma InsertKeeps<D, C>(e: Engine<D, C>, c: Cache<D, C>, out: set<nat>, key: string, raw: Raw)
    requires CacheInv(e, c, out) && raw.ptr in out && raw.key == Some(key)
    requires Fresh(e, c.lib.open[raw.ptr], key)
    ensures var c' := Insert(c, key, raw);
      CacheInv(e, c', out - {raw.ptr}) && Untouched(c, c', out - {raw.ptr}) && c'.capacity == c.capacity
  {
    var i := Find(c.entries, key);
    if i < |c.entries| {
      var rest := Cache(CFinalize(c.lib, c.entries[i].ptr), Without(c.entries, i), c.capacity);
      DropEntryKeeps(e, c, out, i);
      NoOther(c.entries, i, key);
      AppendKeeps(e, rest, out, raw);
    } else {
      InsertNewKeeps(e, c, out, key, raw);
    }
  }

  lemma NoOther(entries: seq<Raw>, i: nat, key: string)
    requires i < |entries| && entries[i].key == Some(key)
    requires forall a, b | 0 <= a < b < |entries| :: entries[a].key != entries[b].key
    ensures Find(Without(entries, i), key) == |entries| - 1
  {
    var w := Without(entries, i);
    forall j | 0 <= j < |w|
      ensures w[j].key != Some(key)
    {
      assert w[j] == entries[if j < i then j else j + 1];
    }
  }

  lemma InsertNewKeeps<D, C>(e: Engine<D, C>, c: Cache<D, C>, out: set<nat>, key: string, raw: Raw)
    requires CacheInv(e, c, out) && raw.ptr in out && raw.key == Some(key)
    requires Fresh(e, c.lib.open[raw.ptr], key) && Find(c.entries, key) == |c.entries|
    ensures var c' := Insert(c, key, raw);
      CacheInv(e, c', out - {raw.ptr}) && Untouched(c, c', out - {raw.ptr}) && c'.capacity == c.capacity
  {
    var roomy := c.(capacity := |c.entries| + 1);
    AppendKeeps(e, roomy, out, raw);
    if |c.entries| + 1 > c.capacity {
      var full := roomy.(entries := c.entries + [raw]);
      DropEntryKeeps(e, full, out - {raw.ptr}, 0);
      assert Without(full.entries, 0) == full.entries[1..];
      EvictOne(c.(entries := full.entries));
      var last := Cache(CFinalize(full.lib, full.entries[0].ptr), full.entries[1..], full.capacity);
      assert Insert(c, key, raw) == last.(capacity := c.capacity);
      LowerCapacity(e, last, out - {raw.ptr}, c.capacity);
    }
  }

  lemma LowerCapacity<D, C>(e: Engine<D, C>, c: Cache<D, C>, out: set<nat>, n: nat)
    requires CacheInv(e, c, out) && |c.entries| <= n
    ensures CacheInv(e, c.(capacity := n), out)
  {
  }

  lemma ResizeCacheKeeps<D, C>(e: Engine<D, C>, c: Cache<D, C>, out: set<nat>, n: nat)
    requires CacheInv(e, c, out)
    ensures CacheInv(e, SetCapacity(c, n), out) && Untouched(c, SetCapacity(c, n), out)
  {
    var k := if n < |c.entries| then |c.entries| - n else 0;
    var c' := Evict(c, k);
    EvictKeeps(e, c, out, k);
    LowerCapacity(e, c', out, n);
    assert SetCapacity(c, n) == c'.(capacity := n);
  }

  lemma EvictOne<D, C>(c: Cache<D, C>)
    requires c.entries != []
    ensures Evict(c, 1) == Cache(CFinalize(c.lib, c.entries[0].ptr), c.entries[1..], c.capacity)
  {
    assert Evict(Cache(CFinalize(c.lib, c.entries[0].ptr), c.entries[1..], c.capacity), 0)
        == Cache(CFinalize(c.lib, c.entries[0].ptr), c.entries[1..], c.capacity);
  }

  /** Clearing the bindings on the way in is what makes a returned statement fresh again. */
  lemma CacheStmtKeeps<D, C>(e: Engine<D, C>, c: Cache<D, C>, out: set<nat>, raw: Raw)
    requires CacheInv(e, c, out) && raw.ptr in out && (raw.key.Some? ==> Returnable(e, c.lib, raw))
    ensures var c' := CacheStmt(c, raw);
      CacheInv(e, c', out - {raw.ptr}) && Untouched(c, c', out - {raw.ptr})
  {
    assert raw.ptr != 0;
    var s := c.lib.open[raw.ptr];
    var cleared := c.(lib := Put(c.lib, raw.ptr, CClear(At(c.lib, raw.ptr))));
    assert forall i | 0 <= i < |c.entries| :: c.entries[i].ptr in Ptrs(c.entries);
    assert cleared.lib.open.Keys == c.lib.open.Keys;
    if raw.key.None? {
      FinalizeKeeps(e, cleared, out, raw.ptr);
    } else {
      assert Fresh(e, cleared.lib.open[raw.ptr], raw.key.value);
      InsertKeeps(e, cleared, out, raw.key.value, raw);
    }
  }

  // ---- The class --------------------------------------------------------

  class StatementCache<D(==), C(==)> {
    const lib: Library<D, C>
    var entries: seq<Raw>
    var capacity: nat

    ghost function Now(): Cache<D, C>
      reads this, lib
    {
      Cache(lib.s, entries, capacity)
    }

    /** The cache owns its entries, `out` is owned by callers. */
    ghost predicate Valid(out: set<nat>)
      reads this, lib
    {
      CacheInv(lib.e, Now(), out)
    }

    constructor (lib: Library<D, C>, capacity: nat)
      ensures this.lib == lib && Now() == Cache(lib.s, [], capacity)
    {
      this.lib := lib;
      entries := [];
      this.capacity := capacity;
    }

    method GetStatement(sql: string, ghost out: set<nat>) returns (r: Result<Raw, Error>)
      requires Valid(out)
      modifies this`entries, lib
      ensures Now() == Get(lib.e, old(Now()), sql).0 && r == Get(lib.e, old(Now()), sql).1
      ensures Valid(if r.Success? && r.value.ptr != 0 then out + {r.value.ptr} else out)
    {
      GetGivesFresh(lib.e, Now(), out, sql);
      var key := Trim(sql);
      var i := Find(entries, key);
      if i < |entries| {
        var raw := entries[i];
        entries := Without(entries, i);
        return Success(raw.(key := Some(key)));
      }
      var p := lib.Prepare(key);
      match p
      case Failure(err) => return Failure(err);
      case Success(ptr) => return Success(Raw(ptr, Some(key)));
    }

    method RemoveOldest(ghost out: set<nat>)
      requires Valid(out) && entries != []
      modifies this`entries, lib
      ensures Now() == Evict(old(Now()), 1) && Valid(out)
    {
      ghost var before := Now();
      EvictKeeps(lib.e, before, out, 1);
      EvictOne(before);
      var p := entries[0].ptr;
      entries := entries[1..];
      lib.Finalize(p);
    }

    /** The map's insert, which finalizes what it pushes out. */
    method InsertEntry(key: string, raw: Raw, ghost out: set<nat>)
      requires Valid(out) && raw.ptr in out
      modifies this`entries, lib
      ensures Now() == Insert(old(Now()), key, raw)
    {
      var i := Find(entries, key);
      if i < |entries| {
        var replaced := entries[i].ptr;
        entries := Without(entries, i) + [raw];
        lib.Finalize(replaced);
      } else {
        entries := entries + [raw];
      }
      if |entries| > capacity {
        var p := entries[0].ptr;
        entries := entries[1..];
        lib.Finalize(p);
      }
    }

    method Return(raw: Raw, ghost out: set<nat>)
      requires Valid(out)
      requires raw.ptr != 0 ==> raw.ptr in out && (raw.key.Some? ==> Returnable(lib.e, lib.s, raw))
      modifies this`entries, lib
      ensures Now() == CacheStmt(old(Now()), raw) && Valid(out - {raw.ptr})
    {
      ghost var before := Now();
      if raw.ptr == 0 {
        assert 0 !in out;
        assert out - {0} == out;
        return;
      }
      CacheStmtKeeps(lib.e, before, out, raw);
      PutKeeps(lib.e, before, out, raw.ptr, CClear(At(lib.s, raw.ptr)));
      lib.ClearBindings(raw.ptr);
      match raw.key
      case None => lib.Finalize(raw.ptr);
      case Some(key) => InsertEntry(key, raw, out);
    }

    method EvictOldest(n: nat, ghost out: set<nat>)
      requires Valid(out) && n <= |entries|
      modifies this`entries, lib
      ensures Now() == Evict(old(Now()), n)
    {
      ghost var before := Now();
      for k := 0 to n
        invariant Now() == Evict(before, k)
      {
        EvictKeeps(lib.e, before, out, k);
        EvictNext(before, k);
        RemoveOldest(out);
      }
    }

    method Resize(n: nat, ghost out: set<nat>)
      requires Valid(out)
      modifies this, lib
      ensures Now() == SetCapacity(old(Now()), n) && Valid(out)
    {
      var excess := if n < |entries| then |entries| - n else 0;
      ghost var before := Now();
      EvictOldest(excess, out);
      capacity := n;
      assert Now() == SetCapacity(before, n);
      ResizeCacheKeeps(lib.e, before, out, n);
    }

    method FlushAll(ghost out: set<nat>)
      requires Valid(out)
      modifies this`entries, lib
      ensures Now() == Flush(old(Now())) && entries == [] && Valid(out)
    {
      EvictKeeps(lib.e, Now(), out, |entries|);
      EvictOldest(|entries|, out);
    }
  }
}
