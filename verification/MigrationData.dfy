/**
 What the migrations do with the stored data: over any sequence of interrupted
 starts no row and no cell is lost, except superseded duplicates and the
 columns that a rebuilt table no longer has.
 */
module MigrationData {
  import opened Tables
  import opened TableRebuild
  import opened CatalogCounts
  import opened Migrations
  import opened MigrationSafety

  /** The columns whose values the migrations write. */
  predicate IsWritten(t: TableName, c: Column) {
    (t == Albums && c == TotalTracks) || (t == Series && c in {SeasonCount, EpisodeTotalCount}) ||
    (t == Artists && c in {AlbumCount, TrackTotalCount, LastProfileSwitchTime, CurrentProfileId, OriginalProfileId}) ||
    (t == Tracks && c == Duration)
  }

  /** The same rows, up to the written columns. */
  ghost predicate SameData(t: TableName, rows: seq<Row>, rows': seq<Row>) {
    |rows'| == |rows| &&
    forall k, c :: 0 <= k < |rows| && !IsWritten(t, c) ==> Get(rows'[k], c) == Get(rows[k], c)
  }

  /** The latest row of each key, with its cells in the columns that both schemas have, up to the written columns. */
  ghost predicate LatestData(t: TableName, source: Table, canonical: set<Column>, rows': seq<Row>) {
    var at := LatestFrom(source.rows, 0);
    |rows'| == |at| &&
    forall k, c :: 0 <= k < |at| && at[k] < |source.rows| && !IsWritten(t, c) ==>
      Get(rows'[k], c) == if c in source.columns && c in canonical then Get(source.rows[at[k]], c) else Null
  }

  /** The table still has its rows, or has been given its composite key and has the latest row of each key. */
  ghost predicate Carried(models: Models, t: TableName, a: Table, b: Table) {
    (b.compositePk == a.compositePk && a.columns <= b.columns &&
     (forall c <- b.columns :: c in a.columns || IsWritten(t, c)) && SameData(t, a.rows, b.rows)) ||
    (b.compositePk && !a.compositePk && t in models && LatestData(t, a, models[t], b.rows))
  }

  ghost predicate AllCarried(models: Models, db: Db, db': Db) {
    db'.tables.Keys == db.tables.Keys &&
    forall t <- db.tables :: Carried(models, t, db.tables[t], db'.tables[t])
  }

  lemma NothingLostYet(models: Models, db: Db)
    ensures AllCarried(models, db, db)
  {
  }

  /** A rewrite of rows that only concerns written columns. */
  ghost predicate Spares(t: TableName, f: Row -> Row) {
    forall r, c :: !IsWritten(t, c) ==> Get(f(r), c) == Get(r, c)
  }

  lemma RewriteCarries(models: Models, t: TableName, a: Table, b: Table, f: Row -> Row, b': Table)
    requires Carried(models, t, a, b) && Spares(t, f)
    requires b'.compositePk == b.compositePk && b.columns <= b'.columns && b'.rows == MapRows(b.rows, f)
    requires forall c <- b'.columns :: c in b.columns || IsWritten(t, c)
    ensures Carried(models, t, a, b')
  {
    MapRowsAt(b.rows, f);
  }

  /** Rows that agree on the key columns are superseded alike. */
  lemma {:induction false} SameKeysSameLatest(rows: seq<Row>, rows': seq<Row>, k: nat)
    requires |rows'| == |rows| && k <= |rows| && forall i :: 0 <= i < |rows| ==> KeyOf(rows'[i]) == KeyOf(rows[i])
    ensures LatestFrom(rows', k) == LatestFrom(rows, k)
    decreases |rows| - k
  {
    if k < |rows| {
      SameKeysSameLatest(rows, rows', k + 1);
      assert Superseded(rows, k) <==> Superseded(rows', k);
    }
  }

  /** The cells of a rebuilt table. */
  lemma RebuiltCells(b: Table, canonical: set<Column>)
    requires {EntryId, ArrInstance} <= b.columns && {EntryId, ArrInstance} <= canonical
    ensures var at, rows := LatestFrom(b.rows, 0), Rebuilt(b, canonical).rows;
            |rows| == |at| &&
            forall k :: 0 <= k < |at| ==>
              at[k] < |b.rows| &&
              forall c :: Get(rows[k], c) == if c in b.columns && c in canonical then Get(b.rows[at[k]], c) else Null
  {
    hide Superseded, Dedupe, LatestFrom;
    DedupeAt(b.rows, 0);
    assert b.rows[0..] == b.rows;
    MapRowsAt(Dedupe(b.rows), Project(canonical * b.columns));
  }

  lemma RebuildCarries(models: Models, t: TableName, a: Table, b: Table)
    requires Carried(models, t, a, b) && !b.compositePk && t in models
    requires {EntryId, ArrInstance} <= b.columns && {EntryId, ArrInstance} <= models[t]
    ensures Carried(models, t, a, Rebuilt(b, models[t]))
  {
    hide Superseded, LatestFrom, CopiedRows;
    forall i | 0 <= i < |a.rows|
      ensures KeyOf(b.rows[i]) == KeyOf(a.rows[i])
    {
      assert !IsWritten(t, EntryId) && !IsWritten(t, ArrInstance);
    }
    SameKeysSameLatest(a.rows, b.rows, 0);
    RebuiltCells(b, models[t]);
    assert LatestData(t, a, models[t], Rebuilt(b, models[t]).rows);
  }

  /** Migration actions and markers. */
  predicate IsStep(a: Action) {
    IsWork(a) || a.Mark?
  }

  lemma CountsAreWritten(db: Db)
    ensures Spares(Albums, CountedAlbum(db.Rows(Tracks))) && Spares(Series, CountedSeries(db.Rows(Episodes))) &&
            Spares(Artists, CountedArtist(db.Rows(Tracks), db.Rows(Albums)))
  {
  }

  lemma WithRowsCarries(models: Models, db: Db, db': Db, t: TableName, f: Row -> Row)
    requires AllCarried(models, db, db') && db'.Has(t) && Spares(t, f)
    ensures AllCarried(models, db, db'.WithRows(t, MapRows(db'.Rows(t), f)))
  {
    RewriteCarries(models, t, db.tables[t], db'.tables[t], f, db'.tables[t].(rows := MapRows(db'.Rows(t), f)));
  }

  lemma BackfillCarries(models: Models, db: Db, db': Db)
    requires AllCarried(models, db, db')
    ensures AllCarried(models, db, BackfillCounts(db'))
  {
    hide AllCarried, CountedAlbum, CountedSeries, CountedArtist, MapRows, Spares;
    CountsAreWritten(db');
    if CountsAlbums(db') {
      WithRowsCarries(models, db, db', Albums, CountedAlbum(db'.Rows(Tracks)));
    }
    var db1 := BackfillAlbums(db');
    CountsAreWritten(db1);
    if CountsSeries(db1) {
      WithRowsCarries(models, db, db1, Series, CountedSeries(db1.Rows(Episodes)));
    }
    var db2 := BackfillSeries(db1);
    CountsAreWritten(db2);
    if CountsArtists(db2) {
      WithRowsCarries(models, db, db2, Artists, CountedArtist(db2.Rows(Tracks), db2.Rows(Albums)));
    }
  }

  lemma ExecCarries(models: Models, db: Db, db': Db, a: Action)
    requires ModelsOk(models) && IsStep(a) && Runnable(db', a) && AllCarried(models, db, db')
    ensures AllCarried(models, db, Exec(models, db', a))
  {
    hide Carried, BackfillCounts, Rebuilt, MapRows;
    match a
    case RebuildPk(t) =>
      if db'.Has(t) && !db'.tables[t].compositePk && t in models {
        RebuildCarries(models, t, db.tables[t], db'.tables[t]);
      }
    case AddColumn(t, c, default) =>
      if db'.Has(t) && c !in db'.tables[t].columns {
        var b := db'.tables[t];
        assert Spares(t, Extend(c, default));
        RewriteCarries(models, t, db.tables[t], b, Extend(c, default), Widened(b, c, default));
      }
    case Backfill => BackfillCarries(models, db, db');
    case NormaliseDurations =>
      if db'.HasColumn(Tracks, Duration) {
        assert Spares(Tracks, NormaliseRow());
        WithRowsCarries(models, db, db', Tracks, NormaliseRow());
      }
    case Mark(_) =>
  }

  lemma {:induction false} RunCarries(models: Models, db: Db, db': Db, actions: seq<Action>, budget: nat)
    requires ModelsOk(models) && AllCarried(models, db, db') && forall a <- actions :: IsStep(a)
    ensures AllCarried(models, db, Run(models, db', actions, budget))
    decreases |actions|
  {
    hide AllCarried, Exec;
    if actions != [] && budget > 0 && Runnable(db', actions[0]) {
      assert actions[0] in actions;
      ExecCarries(models, db, db', actions[0]);
      RunCarries(models, db, Exec(models, db', actions[0]), actions[1..], budget - 1);
    }
  }

  lemma {:induction false} ProgramSteps(v: nat)
    ensures forall a <- Program(SchemaPlan(), v) :: IsStep(a)
    decreases |SchemaPlan()| - v
  {
    if v < |SchemaPlan()| {
      ProgramSteps(v + 1);
      ActionsShape(v + 1);
      assert SchemaPlan()[v] == Actions(v + 1);
    }
  }

  lemma {:induction false} StartsCarryFrom(models: Models, db: Db, db': Db, budgets: seq<nat>)
    requires ModelsOk(models) && AllCarried(models, db, db')
    ensures AllCarried(models, db, Starts(models, db', budgets))
    decreases |budgets|
  {
    hide AllCarried, Run;
    if budgets != [] {
      ProgramSteps(db'.version);
      RunCarries(models, db, db', Program(SchemaPlan(), db'.version), budgets[0]);
      StartsCarryFrom(models, db, Start(models, db', budgets[0]), budgets[1..]);
    }
  }

  /**
   Whatever the version, and wherever the starts are interrupted: every table
   keeps all its rows and cells, or has been rebuilt and keeps the latest row
   of each key with all its cells in the columns it still has.  Only counts,
   switch records and durations are written.
   */
  lemma StartsCarryRows(models: Models, db: Db, budgets: seq<nat>)
    requires ModelsOk(models)
    ensures var db' := Starts(models, db, budgets);
            db'.tables.Keys == db.tables.Keys &&
            forall t <- db.tables :: Carried(models, t, db.tables[t], db'.tables[t])
  {
    NothingLostYet(models, db);
    StartsCarryFrom(models, db, db, budgets);
  }

  // ------------------------------------------------------- what new columns hold

  const SWITCH_COLUMNS := {LastProfileSwitchTime, CurrentProfileId, OriginalProfileId}

  /** Every stored value of the column is this one. */
  ghost predicate HoldsOnly(db: Db, t: TableName, c: Column, value: Cell) {
    forall r <- db.Rows(t) :: Get(r, c) == value
  }

  /** An action that adds a column of switch records adds it empty, one that adds a count adds zeros. */
  predicate AddsDefault(a: Action) {
    a.AddColumn? ==> a.default == if a.column in SWITCH_COLUMNS then Null else Int(0)
  }

  lemma {:induction false} ProgramDefaults(v: nat)
    ensures forall a <- Program(SchemaPlan(), v) :: AddsDefault(a) && (v >= 1 ==> !a.RebuildPk?)
    decreases |SchemaPlan()| - v
  {
    if v < |SchemaPlan()| {
      ProgramDefaults(v + 1);
    }
  }

  lemma MappedHolds(rows: seq<Row>, f: Row -> Row, c: Column, value: Cell)
    requires forall r <- rows :: Get(f(r), c) == value
    ensures forall r <- MapRows(rows, f) :: Get(r, c) == value
  {
    MapRowsAt(rows, f);
    forall r | r in MapRows(rows, f)
      ensures Get(r, c) == value
    {
      var k :| 0 <= k < |rows| && MapRows(rows, f)[k] == r;
      assert rows[k] in rows;
    }
  }

  lemma RebuiltHoldsNull(source: Table, canonical: set<Column>, c: Column)
    requires forall r <- source.rows :: Get(r, c) == Null
    ensures forall r <- Rebuilt(source, canonical).rows :: Get(r, c) == Null
  {
    var at := RebuiltIsCopy(source, canonical);
    var rows := Rebuilt(source, canonical).rows;
    forall r | r in rows
      ensures Get(r, c) == Null
    {
      var k :| 0 <= k < |rows| && rows[k] == r;
      assert source.rows[at[k]] in source.rows;
    }
  }

  lemma BackfillHoldsNull(db: Db, c: Column)
    requires c in SWITCH_COLUMNS && HoldsOnly(db, Artists, c, Null)
    ensures HoldsOnly(BackfillCounts(db), Artists, c, Null)
  {
    hide MapRows, CountedAlbum, CountedSeries;
    var counted := BackfillSeries(BackfillAlbums(db));
    assert counted.Rows(Artists) == db.Rows(Artists);
    MappedHolds(db.Rows(Artists), CountedArtist(counted.Rows(Tracks), counted.Rows(Albums)), c, Null);
  }

  lemma ExecHoldsNull(models: Models, db: Db, a: Action, c: Column)
    requires c in SWITCH_COLUMNS && AddsDefault(a) && HoldsOnly(db, Artists, c, Null)
    ensures HoldsOnly(Exec(models, db, a), Artists, c, Null)
  {
    hide Rebuilt, BackfillCounts, MapRows, NormaliseRow;
    match a
    case RebuildPk(t) =>
      if t == Artists && db.Has(t) && t in models {
        RebuiltHoldsNull(db.tables[t], models[t], c);
      }
    case AddColumn(t, d, default) =>
      if t == Artists && db.Has(t) {
        MappedHolds(db.Rows(t), Extend(d, default), c, Null);
      }
    case Backfill => BackfillHoldsNull(db, c);
    case NormaliseDurations =>
    case Mark(_) =>
  }

  lemma {:induction false} RunHoldsNull(models: Models, db: Db, actions: seq<Action>, budget: nat, c: Column)
    requires c in SWITCH_COLUMNS && HoldsOnly(db, Artists, c, Null) && forall a <- actions :: AddsDefault(a)
    ensures HoldsOnly(Run(models, db, actions, budget), Artists, c, Null)
    decreases |actions|
  {
    hide HoldsOnly, Exec;
    if actions != [] && budget > 0 && Runnable(db, actions[0]) {
      assert actions[0] in actions;
      ExecHoldsNull(models, db, actions[0], c);
      RunHoldsNull(models, Exec(models, db, actions[0]), actions[1..], budget - 1, c);
    }
  }

  /** No switch record is invented: artists without one have none after any sequence of starts. */
  lemma {:induction false} SwitchColumnsStartEmpty(models: Models, db: Db, budgets: seq<nat>, c: Column)
    requires c in {LastProfileSwitchTime, CurrentProfileId, OriginalProfileId}
    requires forall r <- db.Rows(Artists) :: Get(r, c) == Null
    ensures forall r <- Starts(models, db, budgets).Rows(Artists) :: Get(r, c) == Null
    decreases |budgets|
  {
    if budgets != [] {
      ProgramDefaults(db.version);
      RunHoldsNull(models, db, Program(SchemaPlan(), db.version), budgets[0], c);
      SwitchColumnsStartEmpty(models, Start(models, db, budgets[0]), budgets[1..], c);
    }
  }

  /** The table has this count column, but nothing is stored that could be counted. */
  predicate IsUncounted(db: Db, t: TableName, c: Column) {
    (t == Albums && c == TotalTracks && !db.Has(Tracks)) ||
    (t == Series && c in {SeasonCount, EpisodeTotalCount} && !db.Has(Episodes)) ||
    (t == Artists && c in {AlbumCount, TrackTotalCount} && !(db.Has(Albums) && db.Has(Tracks)))
  }

  ghost predicate ZeroIfThere(db: Db, t: TableName, c: Column) {
    IsUncounted(db, t, c) && db.version >= 1 && (db.HasColumn(t, c) ==> HoldsOnly(db, t, c, Int(0)))
  }

  /** A backfill leaves uncounted rows alone. */
  lemma BackfillHoldsZero(db: Db, t: TableName, c: Column)
    requires ZeroIfThere(db, t, c)
    ensures ZeroIfThere(BackfillCounts(db), t, c)
  {
    hide MapRows;
    BackfillFrame(db);
    assert IsUncounted(BackfillAlbums(db), t, c) && IsUncounted(BackfillSeries(BackfillAlbums(db)), t, c);
  }

  lemma ExecHoldsZero(models: Models, db: Db, a: Action, t: TableName, c: Column)
    requires AddsDefault(a) && !a.RebuildPk? && (a.Mark? ==> a.version >= 1) && ZeroIfThere(db, t, c)
    ensures ZeroIfThere(Exec(models, db, a), t, c)
  {
    hide BackfillCounts, MapRows, NormaliseRow;
    match a
    case AddColumn(u, d, default) =>
      if u == t && db.Has(t) && d !in db.tables[t].columns && (d == c || db.HasColumn(t, c)) {
        MappedHolds(db.Rows(t), Extend(d, default), c, Int(0));
      }
    case Backfill => BackfillHoldsZero(db, t, c);
    case NormaliseDurations =>
    case Mark(_) =>
  }

  lemma {:induction false} RunHoldsZero(models: Models, db: Db, actions: seq<Action>, budget: nat, t: TableName,
                                        c: Column)
    requires ZeroIfThere(db, t, c)
    requires forall a <- actions :: AddsDefault(a) && !a.RebuildPk? && (a.Mark? ==> a.version >= 1)
    ensures ZeroIfThere(Run(models, db, actions, budget), t, c)
    decreases |actions|
  {
    hide ZeroIfThere, Exec;
    if actions != [] && budget > 0 && Runnable(db, actions[0]) {
      assert actions[0] in actions;
      ExecHoldsZero(models, db, actions[0], t, c);
      RunHoldsZero(models, Exec(models, db, actions[0]), actions[1..], budget - 1, t, c);
    }
  }

  lemma {:induction false} ProgramMarks(v: nat)
    ensures forall a <- Program(SchemaPlan(), v) :: a.Mark? ==> a.version >= 1
    decreases |SchemaPlan()| - v
  {
    if v < |SchemaPlan()| {
      ProgramMarks(v + 1);
    }
  }

  /** A count column added while there is nothing to count holds zeros. */
  lemma {:induction false} UncountedStartAtZero(models: Models, db: Db, budgets: seq<nat>, t: TableName, c: Column)
    requires db.version >= 1 && IsUncounted(db, t, c)
    requires db.HasColumn(t, c) ==> forall r <- db.Rows(t) :: Get(r, c) == Int(0)
    ensures var db' := Starts(models, db, budgets);
            db'.HasColumn(t, c) ==> forall r <- db'.Rows(t) :: Get(r, c) == Int(0)
    decreases |budgets|
  {
    if budgets != [] {
      ProgramDefaults(db.version);
      ProgramMarks(db.version);
      RunHoldsZero(models, db, Program(SchemaPlan(), db.version), budgets[0], t, c);
      UncountedStartAtZero(models, Start(models, db, budgets[0]), budgets[1..], t, c);
    }
  }
}
