/**
 Rebuilding an Arr file table with the composite primary key
 (`_rebuild_arr_file_table_with_composite_pk`, `_copy_table_with_dedupe`).
 */
module TableRebuild {
  import opened Wrappers
  import opened Tables

  /** A later row (larger rowid) has the same key. */
  predicate Superseded(rows: seq<Row>, i: nat)
    requires i < |rows|
  {
    exists j :: i < j < |rows| && KeyOf(rows[j]) == KeyOf(rows[i])
  }

  /** `ROW_NUMBER() OVER (PARTITION BY key ORDER BY rowid DESC) = 1`, in source order. */
  function Dedupe(rows: seq<Row>): seq<Row> {
    if rows == [] then []
    else (if Superseded(rows, 0) then [] else [rows[0]]) + Dedupe(rows[1..])
  }

  lemma SupersededTail(rows: seq<Row>, i: nat)
    requires 0 < i < |rows|
    ensures Superseded(rows, i) <==> Superseded(rows[1..], i - 1)
  {
    if Superseded(rows, i) {
      var j :| i < j < |rows| && KeyOf(rows[j]) == KeyOf(rows[i]);
      assert rows[1..][j - 1] == rows[j];
    }
  }

  /** A row survives exactly if some occurrence of it is the latest of its key. */
  lemma {:induction false} DedupeMembers(rows: seq<Row>)
    ensures forall r :: r in Dedupe(rows) <==> exists i :: 0 <= i < |rows| && rows[i] == r && !Superseded(rows, i)
  {
    if rows != [] {
      var tail := rows[1..];
      DedupeMembers(tail);
      forall i | 0 < i < |rows|
        ensures Superseded(rows, i) <==> Superseded(tail, i - 1)
      {
        SupersededTail(rows, i);
      }
      forall r
        ensures r in Dedupe(rows) <==> exists i :: 0 <= i < |rows| && rows[i] == r && !Superseded(rows, i)
      {
        if r in Dedupe(tail) {
          var i :| 0 <= i < |tail| && tail[i] == r && !Superseded(tail, i);
          assert rows[i + 1] == r;
        }
        if i :| 0 <= i < |rows| && rows[i] == r && !Superseded(rows, i) {
          if i > 0 {
            assert tail[i - 1] == r;
          }
        }
      }
    }
  }

  /** Exactly one row per key remains. */
  lemma {:induction false} DedupeDistinct(rows: seq<Row>)
    ensures DistinctKeys(Dedupe(rows))
  {
    if rows != [] {
      var kept := Dedupe(rows[1..]);
      DedupeDistinct(rows[1..]);
      DedupeMembers(rows[1..]);
      if !Superseded(rows, 0) {
        forall k | 0 <= k < |kept|
          ensures KeyOf(kept[k]) != KeyOf(rows[0])
        {
          assert kept[k] in kept;
          var i :| 0 <= i < |rows[1..]| && rows[1..][i] == kept[k];
          assert rows[i + 1] == kept[k];
        }
      }
    }
  }

  ghost predicate HoldsKey(rows: seq<Row>, k: Key) {
    exists i :: 0 <= i < |rows| && KeyOf(rows[i]) == k
  }

  /** No key is lost and none is invented. */
  lemma {:induction false} DedupeKeepsKeys(rows: seq<Row>, k: Key)
    ensures HoldsKey(Dedupe(rows), k) <==> HoldsKey(rows, k)
  {
    if rows != [] {
      var tail, kept := rows[1..], Dedupe(rows[1..]);
      DedupeKeepsKeys(tail, k);
      var head := if Superseded(rows, 0) then [] else [rows[0]];
      assert Dedupe(rows) == head + kept;
      if i :| 0 <= i < |rows| && KeyOf(rows[i]) == k {
        if i > 0 {
          assert KeyOf(tail[i - 1]) == k;
        } else if Superseded(rows, 0) {
          var j :| 0 < j < |rows| && KeyOf(rows[j]) == KeyOf(rows[0]);
          assert KeyOf(tail[j - 1]) == k;
        } else {
          assert KeyOf(Dedupe(rows)[0]) == k;
        }
      }
      if i :| 0 <= i < |kept| && KeyOf(kept[i]) == k {
        assert Dedupe(rows)[|head| + i] == kept[i];
      }
      if i :| 0 <= i < |Dedupe(rows)| && KeyOf(Dedupe(rows)[i]) == k {
        if i >= |head| {
          assert kept[i - |head|] == Dedupe(rows)[i];
        }
      }
      if i :| 0 <= i < |tail| && KeyOf(tail[i]) == k {
        assert rows[i + 1] == tail[i];
      }
    }
  }

  lemma SupersededSuffix(rows: seq<Row>, k: nat)
    requires k < |rows|
    ensures Superseded(rows[k..], 0) <==> Superseded(rows, k)
  {
    var tail := rows[k..];
    if j :| 0 < j < |tail| && KeyOf(tail[j]) == KeyOf(tail[0]) {
      assert rows[k + j] == tail[j];
    }
    if j :| k < j < |rows| && KeyOf(rows[j]) == KeyOf(rows[k]) {
      assert tail[j - k] == rows[j];
    }
  }

  /** The positions from `k` on whose row is a superseded duplicate. */
  function SupersededFrom(rows: seq<Row>, k: nat): set<nat> {
    set i: nat | k <= i < |rows| && Superseded(rows, i)
  }

  function SupersededCount(rows: seq<Row>): nat {
    |SupersededFrom(rows, 0)|
  }

  /** The row count drops by exactly the number of superseded duplicates. */
  lemma {:induction false} DedupeCountFrom(rows: seq<Row>, k: nat)
    requires k <= |rows|
    ensures |Dedupe(rows[k..])| + |SupersededFrom(rows, k)| == |rows| - k
    decreases |rows| - k
  {
    if k == |rows| {
      assert SupersededFrom(rows, k) == {};
    } else {
      DedupeCountFrom(rows, k + 1);
      var tail := rows[k..];
      assert tail[1..] == rows[k + 1..];
      SupersededSuffix(rows, k);
      assert SupersededFrom(rows, k) == SupersededFrom(rows, k + 1) + if Superseded(rows, k) then {k} else {};
    }
  }

  lemma DedupeCount(rows: seq<Row>)
    ensures |Dedupe(rows)| + SupersededCount(rows) == |rows|
  {
    DedupeCountFrom(rows, 0);
    assert rows[0..] == rows;
  }

  lemma {:induction false} DedupeFixed(rows: seq<Row>)
    requires DistinctKeys(rows)
    ensures Dedupe(rows) == rows
  {
    if rows != [] {
      DedupeFixed(rows[1..]);
    }
  }

  /** Nothing is dropped, and nothing else changes, exactly when the keys were distinct already. */
  lemma NothingDroppedIff(rows: seq<Row>)
    ensures SupersededCount(rows) == 0 <==> DistinctKeys(rows)
    ensures Dedupe(rows) == rows <==> DistinctKeys(rows)
  {
    if DistinctKeys(rows) {
      DedupeFixed(rows);
    }
    DedupeCount(rows);
    DedupeDistinct(rows);
    if SupersededCount(rows) == 0 {
      forall i, j | 0 <= i < j < |rows|
        ensures KeyOf(rows[i]) != KeyOf(rows[j])
      {
        assert i !in SupersededFrom(rows, 0);
      }
    }
  }

  /** The cells of a row in the given columns. */
  function Project(columns: set<Column>): Row -> Row {
    (r: Row) => map c | c in r && c in columns :: r[c]
  }

  lemma {:induction false} ProjectKeepsDistinctKeys(rows: seq<Row>, columns: set<Column>)
    requires DistinctKeys(rows) && EntryId in columns && ArrInstance in columns
    ensures DistinctKeys(MapRows(rows, Project(columns)))
  {
    MapRowsAt(rows, Project(columns));
    forall r: Row
      ensures KeyOf(Project(columns)(r)) == KeyOf(r)
    {
    }
  }

  /** The rows copied into the new table. */
  function CopiedRows(source: Table, canonical: set<Column>): seq<Row> {
    var columns := canonical * source.columns;
    MapRows(if EntryId in columns && ArrInstance in columns then Dedupe(source.rows) else source.rows, Project(columns))
  }

  function Rebuilt(source: Table, canonical: set<Column>): Table {
    Table(true, canonical, CopiedRows(source, canonical))
  }

  ghost predicate Increasing(at: seq<nat>) {
    forall i, j :: 0 <= i < j < |at| ==> at[i] < at[j]
  }

  /** The positions from `k` on whose row is the latest of its key, in order. */
  function LatestFrom(rows: seq<Row>, k: nat): seq<nat>
    requires k <= |rows|
    decreases |rows| - k
  {
    if k == |rows| then [] else (if Superseded(rows, k) then [] else [k]) + LatestFrom(rows, k + 1)
  }

  lemma {:induction false} LatestMembers(rows: seq<Row>, k: nat)
    requires k <= |rows|
    ensures forall i :: i in LatestFrom(rows, k) <==> k <= i < |rows| && !Superseded(rows, i)
    ensures Increasing(LatestFrom(rows, k))
    decreases |rows| - k
  {
    hide Superseded;
    if k < |rows| {
      LatestMembers(rows, k + 1);
      var rest := LatestFrom(rows, k + 1);
      forall j | 0 <= j < |rest|
        ensures rest[j] > k
      {
        assert rest[j] in rest;
      }
    }
  }

  /** Deduplication keeps the rows at these positions. */
  lemma {:induction false} DedupeAt(rows: seq<Row>, k: nat)
    requires k <= |rows|
    ensures var at := LatestFrom(rows, k);
            |Dedupe(rows[k..])| == |at| &&
            forall j :: 0 <= j < |at| ==> at[j] < |rows| && Dedupe(rows[k..])[j] == rows[at[j]]
    decreases |rows| - k
  {
    hide Superseded;
    if k < |rows| {
      DedupeAt(rows, k + 1);
      SupersededSuffix(rows, k);
      assert rows[k..][1..] == rows[k + 1..] && rows[k..][0] == rows[k];
    }
  }

  /**
   The rebuilt table's rows are the source rows at the given positions, each
   with exactly its cells in the columns that both tables have.
   */
  ghost predicate IsCopy(source: Table, rebuilt: Table, at: seq<nat>) {
    |at| == |rebuilt.rows| && Increasing(at) &&
    forall k :: 0 <= k < |at| ==>
      at[k] < |source.rows| &&
      (forall c :: c in rebuilt.rows[k] <==>
                   c in source.rows[at[k]] && c in source.columns && c in rebuilt.columns) &&
      forall c <- rebuilt.rows[k] :: rebuilt.rows[k][c] == source.rows[at[k]][c]
  }

  /** Copying rows column by column. */
  lemma ProjectedIsCopy(source: Table, canonical: set<Column>, rows: seq<Row>, at: seq<nat>)
    requires |at| == |rows| && Increasing(at)
    requires forall k :: 0 <= k < |at| ==> at[k] < |source.rows| && rows[k] == source.rows[at[k]]
    ensures IsCopy(source, Table(true, canonical, MapRows(rows, Project(canonical * source.columns))), at)
  {
    MapRowsAt(rows, Project(canonical * source.columns));
  }

  function AllPositions(rows: seq<Row>): (at: seq<nat>)
    ensures |at| == |rows| && (forall i :: 0 <= i < |rows| ==> at[i] == i) && Increasing(at)
  {
    seq(|rows|, i requires 0 <= i < |rows| => i)
  }

  /** With the key columns, the latest row of each key is copied; without them, every row. */
  lemma RebuiltIsCopy(source: Table, canonical: set<Column>) returns (at: seq<nat>)
    ensures var rebuilt := Rebuilt(source, canonical);
            IsCopy(source, rebuilt, at) && rebuilt.compositePk && rebuilt.columns == canonical
    ensures forall i :: 0 <= i < |source.rows| ==>
              (i in at <==> !({EntryId, ArrInstance} <= canonical * source.columns && Superseded(source.rows, i)))
  {
    hide Superseded, Dedupe, IsCopy, Increasing, Project, MapRows;
    if {EntryId, ArrInstance} <= canonical * source.columns {
      at := LatestFrom(source.rows, 0);
      LatestMembers(source.rows, 0);
      DedupeAt(source.rows, 0);
      assert source.rows[0..] == source.rows;
      ProjectedIsCopy(source, canonical, Dedupe(source.rows), at);
    } else {
      at := AllPositions(source.rows);
      forall i | 0 <= i < |source.rows|
        ensures i in at
      {
        assert at[i] == i;
      }
      ProjectedIsCopy(source, canonical, source.rows, at);
    }
  }

  /**
   The rebuild runs in one transaction.  It raises, changing nothing, when the
   staging table is left over, no column can be copied, or a copied row
   violates a constraint of the new table (`violates`); otherwise the number it
   reports is the number of superseded duplicates.
   */
  method RebuildArrFileTable(source: Table, canonical: set<Column>, stagingExists: bool, violates: bool)
    returns (rebuilt: Option<Table>, dropped: nat, ghost kept: seq<nat>)
    ensures rebuilt.None? <==> stagingExists || canonical * source.columns == {} || violates
    ensures rebuilt.Some? ==> rebuilt.value == Rebuilt(source, canonical)
    ensures rebuilt.Some? ==> rebuilt.value.columns == canonical && IsCopy(source, rebuilt.value, kept)
    ensures rebuilt.Some? ==>
              forall i :: 0 <= i < |source.rows| ==>
                (i in kept <==> !({EntryId, ArrInstance} <= canonical * source.columns && Superseded(source.rows, i)))
    ensures rebuilt.Some? && {EntryId, ArrInstance} <= canonical * source.columns ==>
              dropped == SupersededCount(source.rows) && DistinctKeys(rebuilt.value.rows) &&
              (dropped == 0 <==> DistinctKeys(source.rows))
    ensures rebuilt.Some? && !({EntryId, ArrInstance} <= canonical * source.columns) ==> dropped == 0
  {
    hide Superseded, Dedupe, IsCopy, Project;
    dropped, kept := 0, [];
    if stagingExists {
      return None, 0, [];
    }
    var oldCount := |source.rows|;
    var columns := canonical * source.columns;
    if columns == {} || violates {
      return None, 0, [];
    }
    kept := RebuiltIsCopy(source, canonical);
    var copied := CopiedRows(source, canonical);
    var newCount := |copied|;
    MapRowsAt(Dedupe(source.rows), Project(columns));
    MapRowsAt(source.rows, Project(columns));
    DedupeCount(source.rows);
    NothingDroppedIff(source.rows);
    dropped := if oldCount - newCount > 0 then oldCount - newCount else 0;
    if EntryId in columns && ArrInstance in columns {
      DedupeDistinct(source.rows);
      ProjectKeepsDistinctKeys(Dedupe(source.rows), columns);
    }
    rebuilt := Some(Table(true, canonical, copied));
  }
}
