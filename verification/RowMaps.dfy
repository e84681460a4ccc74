// Turning result rows into maps from column names to values.
module RowMaps {
  import opened AsciiNames
  import opened Wrappers

  /** A row's column names, possibly repeated, and as many values. */
  datatype Row<+V> = Row(names: seq<string>, values: seq<V>) {
    predicate Valid() {
      |names| == |values|
    }
  }

  /** The first column whose name is `name` up to ASCII case, if any. */
  ghost predicate IsFirst(names: seq<string>, name: string, i: nat) {
    && i < |names| && SameName(name, names[i])
    && forall j | 0 <= j < i :: !SameName(name, names[j])
  }

  method ColumnIndex(names: seq<string>, name: string) returns (r: Option<nat>)
    ensures r.None? <==> forall i | 0 <= i < |names| :: !SameName(name, names[i])
    ensures r.Some? ==> IsFirst(names, name, r.value)
  {
    for i := 0 to |names|
      invariant forall j | 0 <= j < i :: !SameName(name, names[j])
    {
      if SameName(name, names[i]) {
        return Some(i);
      }
    }
    r := None;
  }

  method ColumnNames<V>(row: Row<V>) returns (cols: seq<string>)
    ensures cols == row.names
  {
    cols := [];
    for i := 0 to |row.names|
      invariant cols == row.names[..i]
    {
      cols := cols + [row.names[i]];
    }
  }

  /**
   * The map of a row: one key for each distinct name, exactly as spelt, holding
   * the value of the first column with that name up to case.
   */
  ghost predicate IsMapOf<V>(m: map<string, V>, row: Row<V>) {
    && (forall name :: name in m <==> name in row.names)
    && forall name, i: nat | name in m && IsFirst(row.names, name, i) && i < |row.values| :: m[name] == row.values[i]
  }

  lemma FirstExists(names: seq<string>, name: string)
    requires exists i | 0 <= i < |names| :: SameName(name, names[i])
    ensures exists i: nat :: IsFirst(names, name, i)
  {
    var i :| 0 <= i < |names| && SameName(name, names[i]);
    FirstExistsUpTo(names, name, i);
  }

  lemma {:induction false} FirstExistsUpTo(names: seq<string>, name: string, i: nat)
    requires i < |names| && SameName(name, names[i])
    ensures exists j: nat :: IsFirst(names, name, j)
    decreases i
  {
    if j :| 0 <= j < i && SameName(name, names[j]) {
      FirstExistsUpTo(names, name, j);
    } else {
      assert IsFirst(names, name, i);
    }
  }

  /** The description is complete: a row has only one such map. */
  lemma MapIsUnique<V>(m: map<string, V>, m': map<string, V>, row: Row<V>)
    requires row.Valid() && IsMapOf(m, row) && IsMapOf(m', row)
    ensures m == m'
  {
    forall name | name in m
      ensures name in m' && m[name] == m'[name]
    {
      var i :| 0 <= i < |row.names| && row.names[i] == name;
      SameNameReflexive(row.names[i]);
      FirstExists(row.names, name);
      var j: nat :| IsFirst(row.names, name, j);
    }
    assert m.Keys == m'.Keys;
  }

  /** `get_ref` by name: the first matching column, or `InvalidColumnName`. */
  method GetRef<V>(row: Row<V>, name: string) returns (r: Result<V, string>)
    requires row.Valid()
    ensures r.Failure? <==> forall i | 0 <= i < |row.names| :: !SameName(name, row.names[i])
    ensures r.Failure? ==> r.error == name
    ensures r.Success? ==> exists i: nat :: IsFirst(row.names, name, i) && r.value == row.values[i]
  {
    var index := ColumnIndex(row.names, name);
    match index
    case Some(i) => r := Success(row.values[i]);
    case None => r := Failure(name);
  }

  /** `parse_rows`: the early return for an unknown column name is never taken. */
  method ParseRow<V>(row: Row<V>) returns (r: Result<map<string, V>, string>)
    requires row.Valid()
    ensures r.Success? && IsMapOf(r.value, row)
  {
    var m := map[];
    var columns := ColumnNames(row);
    for i := 0 to |columns|
      invariant forall name :: name in m <==> name in columns[..i]
      invariant forall name, j: nat | name in m && IsFirst(row.names, name, j) :: m[name] == row.values[j]
    {
      SameNameReflexive(columns[i]);
      var value := GetRef(row, columns[i]);
      match value {
        case Failure(e) => return Failure(e);
        case Success(v) => m := m[columns[i] := v];
      }
      assert columns[..i + 1] == columns[..i] + [columns[i]];
    }
    assert columns[..|columns|] == columns;
    r := Success(m);
  }

  /** The loop body of `Rows::new`: the NULL kept ready for an unknown column name is never used. */
  method ReadRow<V>(row: Row<V>, sqlNull: V) returns (m: map<string, V>)
    requires row.Valid()
    ensures IsMapOf(m, row)
  {
    m := map[];
    for i := 0 to |row.names|
      invariant forall name :: name in m <==> name in row.names[..i]
      invariant forall name, j: nat | name in m && IsFirst(row.names, name, j) :: m[name] == row.values[j]
    {
      SameNameReflexive(row.names[i]);
      var value := GetRef(row, row.names[i]);
      m := m[row.names[i] := if value.Success? then value.value else sqlNull];
      assert row.names[..i + 1] == row.names[..i] + [row.names[i]];
    }
    assert row.names[..|row.names|] == row.names;
  }

  /**
   * When the names differ up to case nothing is lost: every column's value is
   * under its own name and there are as many entries as columns. Where two names
   * agree up to case, both keys hold the first column's value.
   */
  lemma MapsLoseOnlyShadowedColumns<V>(m: map<string, V>, row: Row<V>, i: nat)
    requires row.Valid() && IsMapOf(m, row) && i < |row.names|
    ensures row.names[i] in m
    ensures IsFirst(row.names, row.names[i], i) ==> m[row.names[i]] == row.values[i]
    ensures !IsFirst(row.names, row.names[i], i) ==>
      exists j | 0 <= j < i :: SameName(row.names[i], row.names[j]) && m[row.names[i]] == row.values[j] == m[row.names[j]]
  {
    SameNameReflexive(row.names[i]);
    if !IsFirst(row.names, row.names[i], i) {
      FirstExists(row.names, row.names[i]);
      var j: nat :| IsFirst(row.names, row.names[i], j);
      assert IsFirst(row.names, row.names[j], j) by {
        forall k | 0 <= k < j
          ensures !SameName(row.names[j], row.names[k])
        {
          if SameName(row.names[j], row.names[k]) {
            Chain(row.names[i], row.names[j], row.names[k]);
          }
        }
        SameNameReflexive(row.names[j]);
      }
      assert row.names[j] in m;
    }
  }

  lemma Chain(a: string, b: string, c: string)
    requires SameName(a, b) && SameName(b, c)
    ensures SameName(a, c)
  {
  }

  ghost predicate NamesDiffer(names: seq<string>) {
    forall i, j | 0 <= i < j < |names| :: !SameName(names[j], names[i])
  }

  lemma {:induction false} DistinctNamesAreLossless<V>(m: map<string, V>, row: Row<V>)
    requires row.Valid() && IsMapOf(m, row) && NamesDiffer(row.names)
    ensures forall i | 0 <= i < |row.names| :: row.names[i] in m && m[row.names[i]] == row.values[i]
    ensures |m| == |row.names|
  {
    forall i | 0 <= i < |row.names|
      ensures row.names[i] in m && m[row.names[i]] == row.values[i]
    {
      MapsLoseOnlyShadowedColumns(m, row, i);
    }
    NamesAsSet(row.names);
    assert m.Keys == set name | name in row.names;
  }

  lemma {:induction false} NamesAsSet(names: seq<string>)
    requires NamesDiffer(names)
    ensures |(set name | name in names)| == |names|
  {
    if names != [] {
      var rest, last := names[..|names| - 1], names[|names| - 1];
      NamesAsSet(rest);
      assert names == rest + [last];
      forall i | 0 <= i < |rest|
        ensures rest[i] != last
      {
        SameNameReflexive(last);
        assert !SameName(names[|names| - 1], names[i]);
      }
      assert (set name | name in names) == (set name | name in rest) + {last};
    }
  }

  // ---- All rows of a cursor -----------------------------------------------------

  /** What successive calls of the cursor's `next` give; after the last it gives no row. */
  datatype Fetch<+V> = Fetched(row: Row<V>) | FetchFailed

  /** The rows before the first failure. */
  function Leading<V>(fetches: seq<Fetch<V>>): (k: nat)
    ensures k <= |fetches|
    ensures forall i | 0 <= i < k :: fetches[i].Fetched?
    ensures k < |fetches| ==> fetches[k].FetchFailed?
  {
    if fetches == [] || fetches[0].FetchFailed? then 0 else 1 + Leading(fetches[1..])
  }

  /** A JavaScript `Rows` object. */
  class Rows<V> {
    var rows: seq<map<string, V>>

    /** Keeps exactly the rows before the first error, in order; the error itself is lost. */
    constructor (fetches: seq<Fetch<V>>, sqlNull: V)
      requires forall i | 0 <= i < |fetches| && fetches[i].Fetched? :: fetches[i].row.Valid()
      ensures |rows| == Leading(fetches)
      ensures forall i | 0 <= i < |rows| :: IsMapOf(rows[i], fetches[i].row)
    {
      rows := [];
      new;
      var i := 0;
      while i < |fetches| && fetches[i].Fetched?
        invariant i <= Leading(fetches) && |rows| == i
        invariant forall j | 0 <= j < i :: IsMapOf(rows[j], fetches[j].row)
        decreases |fetches| - i
      {
        var m := ReadRow(fetches[i].row, sqlNull);
        rows := rows + [m];
        i := i + 1;
      }
    }

    /** `index as usize`: a negative index wraps round to a huge one. A row that does not convert is an error. */
    function Get<J>(index: int, convert: map<string, V> -> Option<J>): (r: Result<Option<J>, ()>)
      requires -0x8000_0000_0000_0000 <= index < 0x8000_0000_0000_0000
      reads this
      ensures |rows| < 0x8000_0000_0000_0000 && !(0 <= index < |rows|) ==> r == Success(None)
    {
      var u := if index < 0 then index + 0x1_0000_0000_0000_0000 else index;
      if u >= |rows| then Success(None)
      else if convert(rows[u]).None? then Failure(())
      else Success(convert(rows[u]))
    }
  }

  class RowIterator<V> {
    const source: Rows<V>
    var next: nat

    constructor (source: Rows<V>)
      ensures this.source == source && next == 0
    {
      this.source := source;
      next := 0;
    }

    /** The position moves before the row is converted, and a row that does not convert reads as the end. */
    method Next<J>(convert: map<string, V> -> Option<J>) returns (out: Option<J>)
      modifies this
      ensures out == if old(next) < |source.rows| then convert(source.rows[old(next)]) else None
      ensures next == if old(next) < |source.rows| then old(next) + 1 else old(next)
    {
      if next >= |source.rows| {
        return None;
      }
      var row := source.rows[next];
      next := next + 1;
      out := convert(row);
    }
  }

  /**
   * Iterating to the end yields what `get` gives for 0, 1, and so on until it
   * gives nothing, or silently until it gives an error: all the rows exactly when
   * they all convert.
   */
  method Iterate<V, J>(source: Rows<V>, convert: map<string, V> -> Option<J>) returns (all: seq<J>)
    requires |source.rows| < 0x8000_0000_0000_0000
    ensures |all| <= |source.rows|
    ensures forall i | 0 <= i < |all| :: source.Get(i, convert) == Success(Some(all[i]))
    ensures source.Get(|all|, convert) == if |all| == |source.rows| then Success(None) else Failure(())
    ensures |all| == |source.rows| <==> forall i | 0 <= i < |source.rows| :: convert(source.rows[i]).Some?
  {
    var it := new RowIterator(source);
    all := [];
    var out := it.Next(convert);
    while out.Some?
      invariant fresh(it) && it.source == source
      invariant |all| <= |source.rows|
      invariant it.next == if |all| < |source.rows| then |all| + 1 else |all|
      invariant forall i | 0 <= i < |all| :: convert(source.rows[i]) == Some(all[i])
      invariant out == if |all| < |source.rows| then convert(source.rows[|all|]) else None
      decreases |source.rows| - |all|
    {
      all := all + [out.value];
      out := it.Next(convert);
    }
  }
}
