/** The local cache: the `exercises` table seen as a map from primary key to row.
    Inserts follow SQLite's INSERT OR REPLACE conflict resolution: a row whose
    primary key is already present deletes the old row and takes its place. */
module Dao {
  import opened Outcomes
  import opened Data

  /** Every row is stored under its own primary key. */
  predicate KeyedByName(m: map<string, ExerciseEntity>) {
    forall k {:trigger k in m} :: k in m ==> m[k].name == k
  }

  /** The `exercises` table: at most one row per name, found under that name. */
  type Table = m: map<string, ExerciseEntity> | KeyedByName(m) witness map[]

  /** The primary keys carried by a list of rows. */
  function RowNames(rows: seq<ExerciseEntity>): set<string> {
    if rows == [] then {} else {rows[0].name} + RowNames(rows[1..])
  }

  /** A name is among RowNames exactly when some row carries it. */
  lemma {:induction false} RowNamesMembers(rows: seq<ExerciseEntity>, n: string)
    ensures n in RowNames(rows) <==> exists i :: 0 <= i < |rows| && rows[i].name == n
    decreases |rows|
  {
    if rows != [] {
      RowNamesMembers(rows[1..], n);
      if exists i :: 0 <= i < |rows| && rows[i].name == n {
        var i :| 0 <= i < |rows| && rows[i].name == n;
        if i > 0 {
          assert rows[1..][i - 1].name == n;
        }
      }
      if exists i :: 0 <= i < |rows[1..]| && rows[1..][i].name == n {
        var i :| 0 <= i < |rows[1..]| && rows[1..][i].name == n;
        assert rows[i + 1].name == n;
      }
    }
  }

  /** No row after position i has the same name as rows[i]. */
  predicate IsLastOfName(rows: seq<ExerciseEntity>, i: int)
    requires 0 <= i < |rows|
  {
    forall j :: i < j < |rows| ==> rows[j].name != rows[i].name
  }

  /** INSERT OR REPLACE of each row in turn: a row takes the place of any
      stored row with the same key. Stated over plain maps so that it can be
      reasoned about apart from the table's key invariant, which it keeps. */
  function ReplaceEach(m: map<string, ExerciseEntity>, rows: seq<ExerciseEntity>): (r: map<string, ExerciseEntity>)
    ensures r.Keys == m.Keys + RowNames(rows)
    ensures forall n :: n in m && n !in RowNames(rows) ==> r[n] == m[n]
    ensures KeyedByName(m) ==> KeyedByName(r)
    decreases |rows|
  {
    if rows == [] then m
    else ReplaceEach(m[rows[0].name := rows[0]], rows[1..])
  }

  /** For a name repeated in the list, the last row with that name is the one
      stored. */
  lemma {:induction false} ReplaceEachLastWins(m: map<string, ExerciseEntity>, rows: seq<ExerciseEntity>, i: int)
    requires 0 <= i < |rows| && IsLastOfName(rows, i)
    ensures rows[i].name in ReplaceEach(m, rows) && ReplaceEach(m, rows)[rows[i].name] == rows[i]
    decreases |rows|
  {
    var rest := rows[1..];
    if i == 0 {
      RowNamesMembers(rest, rows[0].name);
      assert forall j :: 0 <= j < |rest| ==> rest[j] == rows[j + 1];
    } else {
      assert IsLastOfName(rest, i - 1) && rest[i - 1] == rows[i];
      ReplaceEachLastWins(m[rows[0].name := rows[0]], rest, i - 1);
    }
  }

  /** `insertAll` with `OnConflictStrategy.REPLACE`: the rows are inserted one
      after another, so the key set grows by the list's names, a repeated name
      ends up holding the last row with that name, and rows whose names are not
      in the list are left alone. */
  function InsertAll(t: Table, rows: seq<ExerciseEntity>): (r: Table)
    ensures r.Keys == t.Keys + RowNames(rows)
    ensures forall n :: n in t && n !in RowNames(rows) ==> r[n] == t[n]
    ensures forall i :: 0 <= i < |rows| && IsLastOfName(rows, i) ==> rows[i].name in r && r[rows[i].name] == rows[i]
  {
    var r := ReplaceEach(t, rows);
    assert forall i :: 0 <= i < |rows| && IsLastOfName(rows, i) ==> rows[i].name in r && r[rows[i].name] == rows[i] by {
      forall i | 0 <= i < |rows| && IsLastOfName(rows, i) {
        ReplaceEachLastWins(t, rows, i);
      }
    }
    r
  }

  /** `SELECT * FROM exercises`: every stored row exactly once, in an order the
      store chooses. */
  method GetAllExercises(t: Table) returns (rows: seq<ExerciseEntity>)
    ensures |rows| == |t|
    ensures forall i :: 0 <= i < |rows| ==> rows[i].name in t && t[rows[i].name] == rows[i]
    ensures forall n :: n in t ==> t[n] in rows
    ensures forall i, j :: 0 <= i < j < |rows| ==> rows[i].name != rows[j].name
  {
    rows := [];
    var remaining := t.Keys;
    while remaining != {}
      invariant remaining <= t.Keys
      invariant |rows| + |remaining| == |t|
      invariant forall i :: 0 <= i < |rows| ==> rows[i].name in t && rows[i].name !in remaining && t[rows[i].name] == rows[i]
      invariant forall n :: n in t && n !in remaining ==> t[n] in rows
      invariant forall i, j :: 0 <= i < j < |rows| ==> rows[i].name != rows[j].name
      decreases remaining
    {
      var k :| k in remaining;
      rows := rows + [t[k]];
      remaining := remaining - {k};
    }
  }

  /** `SELECT * FROM exercises WHERE name = :name`: the row with that name, or
      null when there is none. */
  function GetExerciseByName(t: Table, name: string): (r: Option<ExerciseEntity>)
    ensures r.Some? ==> r.value in t.Values && r.value.name == name
    ensures r.None? ==> forall e :: e in t.Values ==> e.name != name
  {
    if name in t then Some(t[name]) else None
  }

  /** Re-inserting the same list changes nothing: REPLACE is idempotent. */
  lemma InsertAllIdempotent(t: Table, rows: seq<ExerciseEntity>)
    ensures InsertAll(InsertAll(t, rows), rows) == InsertAll(t, rows)
  {
    var once := InsertAll(t, rows);
    var twice := InsertAll(once, rows);
    forall n | n in twice
      ensures twice[n] == once[n]
    {
      if n in RowNames(rows) {
        var i := LastIndexOfName(rows, n);
      }
    }
  }

  /** Every name in a list has a last occurrence. */
  lemma {:induction false} LastIndexOfName(rows: seq<ExerciseEntity>, n: string) returns (i: int)
    requires n in RowNames(rows)
    ensures 0 <= i < |rows| && rows[i].name == n && IsLastOfName(rows, i)
    decreases |rows|
  {
    var rest := rows[1..];
    if n in RowNames(rest) {
      var j := LastIndexOfName(rest, n);
      i := j + 1;
      assert forall k :: i < k < |rows| ==> rows[k] == rest[k - 1];
    } else {
      i := 0;
      RowNamesMembers(rest, n);
      assert forall k :: 0 < k < |rows| ==> rows[k] == rest[k - 1];
    }
  }

  /** After `insertAll`, looking a name up gives the last row of the list with
      that name, or the old row when the list does not mention it. */
  lemma LookupAfterInsertAll(t: Table, rows: seq<ExerciseEntity>, name: string)
    ensures name in RowNames(rows) ==>
      exists i :: 0 <= i < |rows| && IsLastOfName(rows, i) && rows[i].name == name
        && GetExerciseByName(InsertAll(t, rows), name) == Some(rows[i])
    ensures name !in RowNames(rows) ==>
      GetExerciseByName(InsertAll(t, rows), name) == GetExerciseByName(t, name)
  {
    if name in RowNames(rows) {
      var i := LastIndexOfName(rows, name);
    }
  }
}
