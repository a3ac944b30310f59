/**
 Crash safety of the schema migrations: replaying finished actions changes
 nothing, so an interrupted sequence of starts ends where one start would.
 */
module MigrationSafety {
  import opened Tables
  import opened TableRebuild
  import opened CatalogCounts
  import opened Migrations

  /** All durations are below the bound under which the rewrite can be replayed. */
  ghost predicate Bounded(db: Db) {
    db.HasColumn(Tracks, Duration) ==>
      forall r <- db.Rows(Tracks) :: Get(r, Duration).Int? ==> Get(r, Duration).n < REPLAY_BOUND
  }

  ghost predicate Regular(models: Models, db: Db) {
    ModelsOk(models) && DbOk(db)
  }

  /** Performing the action again would change nothing. */
  predicate Settled(models: Models, db: Db, a: Action) {
    Runnable(db, a) && Exec(models, db, a) == db
  }

  ghost predicate AllSettled(models: Models, db: Db, actions: seq<Action>) {
    forall i :: 0 <= i < |actions| ==> Settled(models, db, actions[i])
  }

  /** A schema action of some migration, not a marker; no added column is one that is counted over. */
  predicate IsWork(a: Action) {
    match a
    case AddColumn(t, c, _) =>
      (t == Albums && c == TotalTracks) || (t == Series && (c == SeasonCount || c == EpisodeTotalCount)) ||
      (t == Artists && c in {AlbumCount, TrackTotalCount, LastProfileSwitchTime, CurrentProfileId, OriginalProfileId})
    case Mark(_) => false
    case _ => true
  }

  /** The later action cannot unsettle the earlier one. */
  predicate Compatible(a: Action, b: Action) {
    (a.RebuildPk? && b.RebuildPk? && a.table != b.table) || (a.AddColumn? && (b.AddColumn? || b.Backfill?))
  }

  lemma ActionsShape(k: nat)
    requires 1 <= k <= 4
    ensures forall i :: 0 <= i < |Actions(k)| ==> IsWork(Actions(k)[i])
    ensures forall i, j :: 0 <= i < j < |Actions(k)| ==> Compatible(Actions(k)[i], Actions(k)[j])
  {
  }

  // ------------------------------------------------------ what single actions keep

  lemma RebuildKeeps(models: Models, db: Db, t: TableName)
    requires Regular(models, db) && Runnable(db, RebuildPk(t))
    ensures Regular(models, Exec(models, db, RebuildPk(t)))
  {
    if db.Has(t) && !db.tables[t].compositePk {
      var source, canonical := db.tables[t], models[t];
      DedupeDistinct(source.rows);
      ProjectKeepsDistinctKeys(Dedupe(source.rows), canonical * source.columns);
    }
  }

  lemma MapKeepsDistinctKeys(rows: seq<Row>, f: Row -> Row)
    requires DistinctKeys(rows) && forall r :: KeyOf(f(r)) == KeyOf(r)
    ensures DistinctKeys(MapRows(rows, f))
  {
    MapRowsAt(rows, f);
  }

  lemma AddKeeps(models: Models, db: Db, a: Action)
    requires Regular(models, db) && a.AddColumn? && IsWork(a)
    ensures Regular(models, Exec(models, db, a))
  {
    if db.Has(a.table) && a.column !in db.tables[a.table].columns {
      var f := Extend(a.column, a.default);
      assert forall r :: KeyOf(f(r)) == KeyOf(r);
      if db.tables[a.table].compositePk {
        MapKeepsDistinctKeys(db.tables[a.table].rows, f);
      }
    }
  }

  lemma CountedKeys(db: Db)
    ensures forall r :: KeyOf(CountedAlbum(db.Rows(Tracks))(r)) == KeyOf(r)
    ensures forall r :: KeyOf(CountedSeries(db.Rows(Episodes))(r)) == KeyOf(r)
    ensures forall r :: KeyOf(CountedArtist(db.Rows(Tracks), db.Rows(Albums))(r)) == KeyOf(r)
  {
  }

  lemma WithMappedRowsKeepsDbOk(db: Db, t: TableName, f: Row -> Row)
    requires DbOk(db) && db.Has(t) && forall r :: KeyOf(f(r)) == KeyOf(r)
    ensures DbOk(db.WithRows(t, MapRows(db.Rows(t), f)))
  {
    if db.tables[t].compositePk {
      MapKeepsDistinctKeys(db.Rows(t), f);
    }
  }

  /** Only the rows of one table differ, and their keys do not. */
  ghost predicate SameFrame(db: Db, db': Db) {
    db'.version == db.version && db'.tables.Keys == db.tables.Keys && db'.Rows(Tracks) == db.Rows(Tracks) &&
    (forall t <- db.tables :: db'.tables[t].columns == db.tables[t].columns &&
                              db'.tables[t].compositePk == db.tables[t].compositePk) &&
    (DbOk(db) ==> DbOk(db'))
  }

  lemma WithMappedRowsFrame(db: Db, t: TableName, f: Row -> Row)
    requires db.Has(t) && t != Tracks && forall r :: KeyOf(f(r)) == KeyOf(r)
    ensures SameFrame(db, db.WithRows(t, MapRows(db.Rows(t), f)))
  {
    if DbOk(db) {
      WithMappedRowsKeepsDbOk(db, t, f);
    }
  }

  /** The backfill rewrites count columns and nothing else. */
  lemma BackfillFrame(db: Db)
    ensures SameFrame(db, BackfillCounts(db))
  {
    var d1 := BackfillAlbums(db);
    var d2 := BackfillSeries(d1);
    CountedKeys(db);
    CountedKeys(d1);
    CountedKeys(d2);
    if CountsAlbums(db) { WithMappedRowsFrame(db, Albums, CountedAlbum(db.Rows(Tracks))); }
    if CountsSeries(d1) { WithMappedRowsFrame(d1, Series, CountedSeries(d1.Rows(Episodes))); }
    if CountsArtists(d2) { WithMappedRowsFrame(d2, Artists, CountedArtist(d2.Rows(Tracks), d2.Rows(Albums))); }
    assert SameFrame(db, d1) && SameFrame(d1, d2) && SameFrame(d2, BackfillCounts(db));
  }

  lemma NormaliseKeeps(models: Models, db: Db)
    requires Regular(models, db)
    ensures Regular(models, Exec(models, db, NormaliseDurations))
    ensures Bounded(db) ==> Bounded(Exec(models, db, NormaliseDurations))
  {
    if db.HasColumn(Tracks, Duration) {
      assert forall r :: KeyOf(NormaliseRow()(r)) == KeyOf(r);
      WithMappedRowsKeepsDbOk(db, Tracks, NormaliseRow());
      forall r | Bounded(db) && r in MapRows(db.Rows(Tracks), NormaliseRow())
        ensures Get(r, Duration).Int? ==> Get(r, Duration).n < REPLAY_BOUND
      {
        MappedRowsSatisfy(db.Rows(Tracks), NormaliseRow(), r);
      }
    }
  }

  lemma ExecKeeps(models: Models, db: Db, a: Action)
    requires Regular(models, db) && IsWork(a) && Runnable(db, a)
    ensures Regular(models, Exec(models, db, a)) && Exec(models, db, a).version == db.version
    ensures a.NormaliseDurations? && Bounded(db) ==> Bounded(Exec(models, db, a))
  {
    match a
    case RebuildPk(t) => RebuildKeeps(models, db, t);
    case AddColumn(_, _, _) => AddKeeps(models, db, a);
    case Backfill => BackfillFrame(db);
    case NormaliseDurations => NormaliseKeeps(models, db);
  }

  // ---------------------------------------------------------------- replayability

  lemma SecondsTwice(c: Cell)
    ensures Seconds(Seconds(c)) == Seconds(c) <==> (c.Int? ==> c.n < REPLAY_BOUND)
  {
  }

  lemma NormaliseRowTwice(r: Row)
    ensures NormaliseRow()(NormaliseRow()(r)) == NormaliseRow()(r) <==>
            (Get(r, Duration).Int? ==> Get(r, Duration).n < REPLAY_BOUND)
  {
    var f := NormaliseRow();
    if Duration in r {
      SecondsTwice(r[Duration]);
      assert f(r)[Duration] == Seconds(r[Duration]) && f(f(r))[Duration] == Seconds(Seconds(r[Duration]));
      if Seconds(Seconds(r[Duration])) == Seconds(r[Duration]) {
        assert f(f(r)) == f(r);
      }
    }
  }

  /** The bound is sharp: one below it is a fixed point after one rewrite, the bound itself is divided twice. */
  lemma BoundIsSharp()
    ensures Seconds(Int(REPLAY_BOUND - 1)) == Int(36000) == Seconds(Int(36000))
    ensures Seconds(Int(REPLAY_BOUND)) == Int(36001) && Seconds(Int(36001)) == Int(36)
  {
  }

  lemma MapTwiceFixed(rows: seq<Row>, f: Row -> Row)
    ensures MapRows(MapRows(rows, f), f) == MapRows(rows, f) <==> forall r <- rows :: f(f(r)) == f(r)
  {
    MapRowsFixed(MapRows(rows, f), f);
    MapRowsAt(rows, f);
    if forall r <- rows :: f(f(r)) == f(r) {
      forall y | y in MapRows(rows, f)
        ensures f(y) == y
      {
        MappedRowsSatisfy(rows, f, y);
      }
    }
    if forall y <- MapRows(rows, f) :: f(y) == y {
      forall r | r in rows
        ensures f(f(r)) == f(r)
      {
        var i :| 0 <= i < |rows| && rows[i] == r;
        assert MapRows(rows, f)[i] in MapRows(rows, f);
      }
    }
  }

  /**
   The duration rewrite can be replayed exactly when every stored duration is
   below 36001000.
   */
  lemma NormaliseReplayableIff(models: Models, db: Db)
    requires db.HasColumn(Tracks, Duration)
    ensures var once := Exec(models, db, NormaliseDurations);
            Exec(models, once, NormaliseDurations) == once <==> Bounded(db)
  {
    var rows, f := db.Rows(Tracks), NormaliseRow();
    MapTwiceFixed(rows, f);
    WithRowsFixed(db.WithRows(Tracks, MapRows(rows, f)), Tracks, MapRows(MapRows(rows, f), f));
    forall r | r in rows
      ensures f(f(r)) == f(r) <==> (Get(r, Duration).Int? ==> Get(r, Duration).n < REPLAY_BOUND)
    {
      NormaliseRowTwice(r);
    }
  }

  lemma ExecSettles(models: Models, db: Db, a: Action)
    requires Regular(models, db) && IsWork(a) && Runnable(db, a) && (a.NormaliseDurations? ==> Bounded(db))
    ensures Settled(models, Exec(models, db, a), a)
  {
    match a
    case RebuildPk(t) =>
    case AddColumn(t, c, d) =>
      if db.Has(t) {
        var once := Exec(models, db, a);
        assert once.tables[t := once.tables[t]] == once.tables;
      }
    case Backfill => BackfillIdempotent(db);
    case NormaliseDurations =>
      if db.HasColumn(Tracks, Duration) {
        NormaliseReplayableIff(models, db);
      }
  }

  /** An added column is there for good. */
  lemma AddSettledIff(models: Models, db: Db, a: Action)
    requires a.AddColumn?
    ensures Settled(models, db, a) <==> (db.Has(a.table) ==> a.column in db.tables[a.table].columns)
  {
    if db.Has(a.table) && a.column in db.tables[a.table].columns {
      assert db.tables[a.table := db.tables[a.table]] == db.tables;
    }
  }

  lemma SettledPersists(models: Models, db: Db, a: Action, b: Action)
    requires Compatible(a, b) && IsWork(b) && Settled(models, db, a) && ModelsOk(models)
    ensures Settled(models, Exec(models, db, b), a)
  {
    if a.AddColumn? {
      AddSettledIff(models, db, a);
      AddSettledIff(models, Exec(models, db, b), a);
      if b.Backfill? {
        BackfillFrame(db);
      }
    } else {
      var db' := Exec(models, db, b);
      if db.Has(a.table) {
        assert db'.tables[a.table] == db.tables[a.table];
        assert Exec(models, db, a).tables[a.table].compositePk;
      }
    }
  }

  // ------------------------------------------------------ a start after an interruption

  function RunAll(models: Models, db: Db, actions: seq<Action>): Db {
    Run(models, db, actions, |actions|)
  }

  /** Every migration consists of work whose later actions do not unsettle earlier ones. */
  ghost predicate IsMigration(acts: seq<Action>) {
    (forall i :: 0 <= i < |acts| ==> IsWork(acts[i])) &&
    (forall i, j :: 0 <= i < j < |acts| ==> Compatible(acts[i], acts[j]))
  }

  ghost predicate IsPlan(plan: Plan) {
    forall v :: 0 <= v < |plan| ==> IsMigration(plan[v])
  }

  lemma SchemaPlanIsPlan()
    ensures IsPlan(SchemaPlan()) && |SchemaPlan()| == TARGET_VERSION
  {
    ActionsShape(1);
    ActionsShape(2);
    ActionsShape(3);
    ActionsShape(4);
  }

  lemma RunCons(models: Models, db: Db, a: Action, rest: seq<Action>, budget: nat)
    ensures Run(models, db, [a] + rest, budget) ==
            if budget == 0 || !Runnable(db, a) then db else Run(models, Exec(models, db, a), rest, budget - 1)
    ensures RunAll(models, db, [a] + rest) == if !Runnable(db, a) then db else RunAll(models, Exec(models, db, a), rest)
  {
    assert ([a] + rest)[0] == a && ([a] + rest)[1..] == rest;
  }

  lemma {:induction false} SkipSettled(models: Models, db: Db, done: seq<Action>, rest: seq<Action>)
    requires AllSettled(models, db, done)
    ensures RunAll(models, db, done + rest) == RunAll(models, db, rest)
    decreases |done|
  {
    if done == [] {
      assert done + rest == rest;
    } else {
      assert done + rest == [done[0]] + (done[1..] + rest);
      RunCons(models, db, done[0], done[1..] + rest, 0);
      assert forall i :: 0 <= i < |done[1..]| ==> done[1..][i] == done[i + 1];
      SkipSettled(models, db, done[1..], rest);
    }
  }

  lemma NextSettled(models: Models, db: Db, acts: seq<Action>, j: nat)
    requires IsMigration(acts) && j < |acts| && Regular(models, db) && (acts[j].NormaliseDurations? ==> Bounded(db))
    requires AllSettled(models, db, acts[..j]) && Runnable(db, acts[j])
    ensures AllSettled(models, Exec(models, db, acts[j]), acts[..j + 1])
  {
    ExecSettles(models, db, acts[j]);
    var done := acts[..j + 1];
    forall i | 0 <= i < |done|
      ensures Settled(models, Exec(models, db, acts[j]), done[i])
    {
      if i < j {
        assert acts[..j][i] == done[i] == acts[i];
        SettledPersists(models, db, acts[i], acts[j]);
      }
    }
  }

  /** The first `i` actions are settled and the next one can run. */
  ghost predicate IsNext(models: Models, acts: seq<Action>, d: Db, i: nat) {
    i < |acts| && Runnable(d, acts[i]) && AllSettled(models, d, acts[..i])
  }

  /**
   In databases with the given property, every next action of the migration
   keeps the property and the version, and leaves all actions up to it settled.
   */
  ghost predicate Replayable(models: Models, acts: seq<Action>, version: nat, keeps: Db -> bool) {
    forall d: Db, i: nat {:trigger IsNext(models, acts, d, i)} ::
      IsNext(models, acts, d, i) && d.version == version && keeps(d) ==>
        keeps(Exec(models, d, acts[i])) && Exec(models, d, acts[i]).version == version &&
        AllSettled(models, Exec(models, d, acts[i]), acts[..i + 1])
  }

  ghost predicate IsFinished(models: Models, plan: Plan, d: Db) {
    d.version < |plan| && AllSettled(models, d, plan[d.version])
  }

  ghost predicate ReplayablePlan(models: Models, plan: Plan, keeps: Db -> bool) {
    (forall v :: 0 <= v < |plan| ==> Replayable(models, plan[v], v, keeps)) &&
    (forall d: Db {:trigger IsFinished(models, plan, d)} ::
       IsFinished(models, plan, d) && keeps(d) ==> keeps(d.(version := d.version + 1)))
  }

  /**
   Running one migration and what follows it from its `j`-th action: either
   the run stops within the migration, or it gets through to what follows.
   Replaying the migration from the state reached changes the outcome in
   neither case.
   */
  lemma {:induction false} WithinMigration(models: Models, acts: seq<Action>, tail: seq<Action>, keeps: Db -> bool,
                                           db: Db, j: nat, budget: nat)
    returns (done: bool, reached: Db, left: nat)
    requires Replayable(models, acts, db.version, keeps) && keeps(db)
    requires j <= |acts| && AllSettled(models, db, acts[..j])
    ensures keeps(reached) && reached.version == db.version
    ensures RunAll(models, db, acts[j..] + tail) == RunAll(models, reached, acts + tail)
    ensures Run(models, db, acts[j..] + tail, budget) == if done then Run(models, reached, tail, left) else reached
    ensures done ==> AllSettled(models, reached, acts)
    decreases |acts| - j
  {
    if j == |acts| {
      done, reached, left := true, db, budget;
      assert acts[..j] == acts && acts[j..] + tail == tail;
      SkipSettled(models, db, acts, tail);
    } else {
      var a, rest := acts[j], acts[j + 1..] + tail;
      assert acts[j..] + tail == [a] + rest;
      RunCons(models, db, a, rest, budget);
      if budget == 0 || !Runnable(db, a) {
        done, reached, left := false, db, 0;
        assert acts + tail == acts[..j] + ([a] + rest);
        SkipSettled(models, db, acts[..j], [a] + rest);
      } else {
        assert IsNext(models, acts, db, j);
        done, reached, left := WithinMigration(models, acts, tail, keeps, Exec(models, db, a), j + 1, budget - 1);
      }
    }
  }

  /** One migration of a start: it stops inside, or reaches the next version with budget to spare. */
  lemma OneMigration(models: Models, plan: Plan, keeps: Db -> bool, db: Db, budget: nat)
    returns (marked: bool, reached: Db, left: nat)
    requires db.version < |plan| && ReplayablePlan(models, plan, keeps) && keeps(db)
    ensures keeps(reached) && reached.version == if marked then db.version + 1 else db.version
    ensures RunAll(models, db, Program(plan, db.version)) == RunAll(models, reached, Program(plan, reached.version))
    ensures Run(models, db, Program(plan, db.version), budget) ==
            if marked then Run(models, reached, Program(plan, reached.version), left) else reached
  {
    var v := db.version;
    var acts, after := plan[v], Program(plan, v + 1);
    var tail := [Mark(v + 1)] + after;
    assert Program(plan, v) == acts + tail && acts[0..] + tail == acts + tail;
    var done;
    done, reached, left := WithinMigration(models, acts, tail, keeps, db, 0, budget);
    marked := done && left > 0;
    if done {
      RunCons(models, reached, Mark(v + 1), after, left);
      if left > 0 {
        SkipSettled(models, reached, acts, tail);
        assert IsFinished(models, plan, reached);
        reached, left := reached.(version := v + 1), left - 1;
      }
    }
  }

  /**
   Interrupting a start anywhere and starting over gives what finishing it
   would have given; meanwhile the version does not decrease and the property
   stays true.
   */
  lemma {:induction false} InterruptedEndsAlike(models: Models, plan: Plan, keeps: Db -> bool, db: Db, budget: nat)
    requires ReplayablePlan(models, plan, keeps) && keeps(db)
    ensures var end := Run(models, db, Program(plan, db.version), budget);
            RunAll(models, end, Program(plan, end.version)) == RunAll(models, db, Program(plan, db.version)) &&
            db.version <= end.version && keeps(end)
    decreases |plan| - db.version
  {
    if db.version < |plan| {
      var marked, reached, left := OneMigration(models, plan, keeps, db, budget);
      if marked {
        InterruptedEndsAlike(models, plan, keeps, reached, left);
      }
    }
  }

  // ------------------------------------------------------------- whole starts

  /** The migrations before the duration rewrite. */
  function EarlyPlan(): Plan {
    [Actions(1), Actions(2)]
  }

  /** Where a start stands when the duration rewrite would come next, or where it stops before that. */
  function BeforeRewrite(models: Models, db: Db): Db {
    RunAll(models, db, Program(EarlyPlan(), db.version))
  }

  /** The rewrite, if it is still to come and is reached, meets no long duration. */
  ghost predicate ReachesShort(models: Models, db: Db) {
    BeforeRewrite(models, db).version == 2 ==> Bounded(BeforeRewrite(models, db))
  }

  /** All tables can get their composite key. */
  ghost predicate CanRebuild(db: Db) {
    forall t :: Runnable(db, RebuildPk(t))
  }

  /** No long duration survives giving the tracks their composite key, which drops superseded rows. */
  ghost predicate SurvivorsBounded(models: Models, db: Db) {
    if !db.Has(Tracks) || db.tables[Tracks].compositePk || Tracks !in models then Bounded(db)
    else
      var rows := db.Rows(Tracks);
      Duration in models[Tracks] * db.tables[Tracks].columns ==>
        forall i :: 0 <= i < |rows| && !Superseded(rows, i) && Get(rows[i], Duration).Int? ==>
                      Get(rows[i], Duration).n < REPLAY_BOUND
  }

  /** The stored durations that the rewrite will meet, if a start gets that far, are below the bound. */
  ghost predicate Recoverable(models: Models, db: Db) {
    match db.version
    case 0 => CanRebuild(db) ==> SurvivorsBounded(models, db)
    case 1 => Bounded(db)
    case 2 => Bounded(db)
    case _ => true
  }

  lemma BoundedIsRecoverable(models: Models, db: Db)
    requires Bounded(db)
    ensures Recoverable(models, db)
  {
    assert forall i :: 0 <= i < |db.Rows(Tracks)| ==> db.Rows(Tracks)[i] in db.Rows(Tracks);
  }

  ghost function ReachesShortDb(models: Models): Db -> bool {
    (d: Db) => Regular(models, d) && ReachesShort(models, d)
  }

  lemma EarlyPrograms()
    ensures Program(EarlyPlan(), 0) == Actions(1) + ([Mark(1)] + Program(EarlyPlan(), 1))
    ensures Program(EarlyPlan(), 1) == Actions(2) + ([Mark(2)] + Program(EarlyPlan(), 2))
    ensures forall v :: v >= 2 ==> Program(EarlyPlan(), v) == []
  {
    hide Actions;
  }

  /** Within a migration, the next action does not change where the rewrite would start from. */
  lemma NextKeepsReach(models: Models, acts: seq<Action>, tail: seq<Action>, d: Db, i: nat)
    requires IsNext(models, acts, d, i) && AllSettled(models, Exec(models, d, acts[i]), acts[..i + 1])
    ensures RunAll(models, Exec(models, d, acts[i]), acts + tail) == RunAll(models, d, acts + tail)
  {
    hide Runnable, Exec, AllSettled;
    var rest := acts[i + 1..] + tail;
    assert acts + tail == acts[..i] + ([acts[i]] + rest) && acts + tail == acts[..i + 1] + rest;
    SkipSettled(models, d, acts[..i], [acts[i]] + rest);
    RunCons(models, d, acts[i], rest, 0);
    SkipSettled(models, Exec(models, d, acts[i]), acts[..i + 1], rest);
  }

  /** Neither does moving the marker. */
  lemma MarkKeepsReach(models: Models, acts: seq<Action>, tail: seq<Action>, d: Db, v: nat)
    requires AllSettled(models, d, acts)
    ensures RunAll(models, d, acts + ([Mark(v)] + tail)) == RunAll(models, d.(version := v), tail)
  {
    SkipSettled(models, d, acts, [Mark(v)] + tail);
    RunCons(models, d, Mark(v), tail, 0);
  }

  lemma ShortMigration(models: Models, v: nat)
    requires v < TARGET_VERSION
    ensures Replayable(models, SchemaPlan()[v], v, ReachesShortDb(models))
  {
    var acts := SchemaPlan()[v];
    SchemaPlanIsPlan();
    EarlyPrograms();
    forall d: Db, i: nat | IsNext(models, acts, d, i) && d.version == v && ReachesShortDb(models)(d)
      ensures ReachesShortDb(models)(Exec(models, d, acts[i])) && Exec(models, d, acts[i]).version == v
      ensures AllSettled(models, Exec(models, d, acts[i]), acts[..i + 1])
    {
      ShortNext(models, acts, d, i);
    }
  }

  lemma AlreadyThere(models: Models, db: Db)
    requires db.version >= 2
    ensures BeforeRewrite(models, db) == db
  {
    EarlyPrograms();
  }

  lemma RewriteIsThird(v: nat, i: nat)
    requires v < TARGET_VERSION && i < |SchemaPlan()[v]|
    ensures SchemaPlan()[v][i].NormaliseDurations? <==> v == 2
  {
  }

  lemma ShortNext(models: Models, acts: seq<Action>, d: Db, i: nat)
    requires d.version < TARGET_VERSION && acts == SchemaPlan()[d.version]
    requires IsNext(models, acts, d, i) && Regular(models, d) && ReachesShort(models, d)
    ensures var d' := Exec(models, d, acts[i]);
            Regular(models, d') && ReachesShort(models, d') && d'.version == d.version &&
            AllSettled(models, d', acts[..i + 1])
  {
    hide Exec, Runnable, Actions, Run, Bounded, Regular, AllSettled;
    SchemaPlanIsPlan();
    EarlyPrograms();
    RewriteIsThird(d.version, i);
    assert IsMigration(acts);
    if d.version >= 2 {
      AlreadyThere(models, d);
    }
    ExecKeeps(models, d, acts[i]);
    NextSettled(models, d, acts, i);
    if d.version >= 2 {
      AlreadyThere(models, Exec(models, d, acts[i]));
    }
    if d.version < 2 {
      NextKeepsReach(models, acts, [Mark(d.version + 1)] + Program(EarlyPlan(), d.version + 1), d, i);
    }
  }

  lemma ShortMark(models: Models, d: Db)
    requires IsFinished(models, SchemaPlan(), d) && Regular(models, d) && ReachesShort(models, d)
    ensures Regular(models, d.(version := d.version + 1)) && ReachesShort(models, d.(version := d.version + 1))
  {
    EarlyPrograms();
    if d.version < 2 {
      MarkKeepsReach(models, SchemaPlan()[d.version], Program(EarlyPlan(), d.version + 1), d, d.version + 1);
    }
  }

  lemma ShortPlan(models: Models)
    ensures ReplayablePlan(models, SchemaPlan(), ReachesShortDb(models))
  {
    var plan := SchemaPlan();
    forall v | 0 <= v < |plan|
      ensures Replayable(models, plan[v], v, ReachesShortDb(models))
    {
      ShortMigration(models, v);
    }
    forall d: Db | IsFinished(models, plan, d) && ReachesShortDb(models)(d)
      ensures ReachesShortDb(models)(d.(version := d.version + 1))
    {
      ShortMark(models, d);
    }
  }

  lemma {:induction false} StopsShort(models: Models, db: Db, actions: seq<Action>, budget: nat)
    requires !AllRunnable(models, db, actions) && db.version != 2
    requires forall i :: 0 <= i < |actions| - 1 ==> actions[i] != Mark(2)
    ensures Run(models, db, actions, budget).version != 2
    decreases |actions|
  {
    if budget > 0 && Runnable(db, actions[0]) {
      BackfillFrame(db);
      StopsShort(models, Exec(models, db, actions[0]), actions[1..], budget - 1);
    }
  }

  lemma {:induction false} RunEnough(models: Models, db: Db, actions: seq<Action>, budget: nat)
    requires budget >= |actions|
    ensures Run(models, db, actions, budget) == RunAll(models, db, actions)
    decreases |actions|
  {
    hide Exec, Runnable;
    if actions != [] && Runnable(db, actions[0]) {
      RunEnough(models, Exec(models, db, actions[0]), actions[1..], budget - 1);
      RunEnough(models, Exec(models, db, actions[0]), actions[1..], |actions| - 1);
    }
  }

  /** Runs whose actions leave the tracks alone. */
  predicate SparesTracks(a: Action) {
    a.Mark? || a.Backfill? || (a.AddColumn? && a.table != Tracks)
  }

  predicate SameTracks(db: Db, db': Db) {
    db'.Has(Tracks) == db.Has(Tracks) && (db.Has(Tracks) ==> db'.tables[Tracks] == db.tables[Tracks])
  }

  lemma {:induction false} RunKeepsTracks(models: Models, db: Db, actions: seq<Action>, budget: nat)
    requires forall a <- actions :: SparesTracks(a)
    ensures SameTracks(db, Run(models, db, actions, budget))
    decreases |actions|
  {
    hide BackfillCounts;
    if actions != [] && budget > 0 {
      assert SparesTracks(actions[0]);
      BackfillFrame(db);
      RunKeepsTracks(models, Exec(models, db, actions[0]), actions[1..], budget - 1);
    }
  }

  lemma {:induction false} AllRunnableWithoutRebuilds(models: Models, db: Db, actions: seq<Action>)
    requires forall a <- actions :: !a.RebuildPk?
    ensures AllRunnable(models, db, actions)
    decreases |actions|
  {
    hide Exec;
    if actions != [] {
      assert !actions[0].RebuildPk?;
      AllRunnableWithoutRebuilds(models, Exec(models, db, actions[0]), actions[1..]);
    }
  }

  /** A run that is not cut short ends at its last marker. */
  lemma EndsMarked(models: Models, db: Db, actions: seq<Action>, v: nat)
    requires AllRunnable(models, db, actions + [Mark(v)])
    ensures RunAll(models, db, actions + [Mark(v)]).version == v
  {
    hide Exec, Runnable, Run, AllRunnable;
    AllRunnableAppend(models, db, actions, [Mark(v)]);
    RunAppend(models, db, actions, [Mark(v)], |actions| + 1);
    MarkRuns(models, Run(models, db, actions, |actions| + 1), v, 1);
  }

  lemma RebuildsOneTable(models: Models, db: Db, a: Action, t: TableName)
    requires a.RebuildPk?
    ensures var db' := Exec(models, db, a);
            db'.Has(t) == db.Has(t) && (t != a.table && db.Has(t) ==> db'.tables[t] == db.tables[t]) &&
            (t != a.table ==> (Runnable(db', RebuildPk(t)) <==> Runnable(db, RebuildPk(t)))) &&
            (t != a.table && db.Has(t) ==>
               Exec(models, db', RebuildPk(t)).Has(t) && Exec(models, db, RebuildPk(t)).Has(t) &&
               Exec(models, db', RebuildPk(t)).tables[t] == Exec(models, db, RebuildPk(t)).tables[t])
  {
    hide Rebuilt;
  }

  lemma RestRebuilds(models: Models, db: Db, first: Action, rest: seq<Action>)
    requires first.RebuildPk? && forall a <- rest :: a.RebuildPk? && a.table != first.table
    ensures forall a <- rest :: Runnable(Exec(models, db, first), a) <==> Runnable(db, a)
  {
    hide Exec, Runnable;
    forall a | a in rest
      ensures Runnable(Exec(models, db, first), a) <==> Runnable(db, a)
    {
      RebuildsOneTable(models, db, first, a.table);
    }
  }

  /** Rebuilds of different tables do not interfere: each can run, and has its effect, as if it were alone. */
  lemma {:induction false} RebuildsAreIndependent(models: Models, db: Db, actions: seq<Action>, t: TableName)
    requires forall a <- actions :: a.RebuildPk?
    requires forall i, j :: 0 <= i < j < |actions| ==> actions[i].table != actions[j].table
    ensures AllRunnable(models, db, actions) <==> forall a <- actions :: Runnable(db, a)
    ensures var db' := RunAll(models, db, actions);
            AllRunnable(models, db, actions) ==>
              db'.Has(t) == db.Has(t) &&
              (db.Has(t) && RebuildPk(t) in actions ==> Exec(models, db, RebuildPk(t)).Has(t)) &&
              (db.Has(t) ==>
                 db'.tables[t] ==
                   if RebuildPk(t) in actions then Exec(models, db, RebuildPk(t)).tables[t] else db.tables[t])
    decreases |actions|
  {
    hide Exec, Runnable;
    if actions != [] {
      var first, rest := actions[0], actions[1..];
      assert actions == [first] + rest && first.RebuildPk?;
      forall a | a in rest
        ensures a.RebuildPk? && a.table != first.table
      {
        var k :| 0 <= k < |rest| && rest[k] == a;
        assert actions[k + 1] == a;
      }
      RunCons(models, db, first, rest, 0);
      RestRebuilds(models, db, first, rest);
      RebuildsOneTable(models, db, first, t);
      RebuildsAreIndependent(models, Exec(models, db, first), rest, t);
    }
  }

  lemma AllTablesRebuilt(t: TableName)
    ensures RebuildPk(t) in Actions(1)
  {
    var i := match t case Movies => 0 case Episodes => 1 case Albums => 2 case Series => 3
             case Artists => 4 case Tracks => 5 case Books => 6 case Authors => 7;
    assert Actions(1)[i] == RebuildPk(t);
  }

  lemma OnlyRebuilds()
    ensures forall a <- Actions(1) :: a.RebuildPk?
  {
  }

  lemma RebuildsShape()
    ensures forall a <- Actions(1) :: a.RebuildPk?
    ensures forall i, j :: 0 <= i < j < |Actions(1)| ==> Actions(1)[i].table != Actions(1)[j].table
    ensures forall t :: RebuildPk(t) in Actions(1)
  {
    hide Actions;
    ActionsShape(1);
    OnlyRebuilds();
    forall t
      ensures RebuildPk(t) in Actions(1)
    {
      AllTablesRebuilt(t);
    }
    forall i, j | 0 <= i < j < |Actions(1)|
      ensures Actions(1)[i].table != Actions(1)[j].table
    {
      assert Compatible(Actions(1)[i], Actions(1)[j]) && Actions(1)[i].RebuildPk?;
    }
  }

  lemma EarlyShape()
    ensures [Mark(1)] + Program(EarlyPlan(), 1) == [Mark(1)] + Actions(2) + [Mark(2)]
    ensures forall a <- [Mark(1)] + Actions(2) :: a != Mark(2)
    ensures forall a <- [Mark(1)] + Actions(2) + [Mark(2)] :: SparesTracks(a) && !a.RebuildPk?
  {
    EarlyPrograms();
    hide Program;
    ActionsShape(2);
    assert forall a <- Actions(2) :: IsWork(a) && SparesTracks(a) && !a.RebuildPk?;
  }

  /** The version-1 rebuilds, then everything else before the rewrite. */
  lemma AfterRebuilds(models: Models, db: Db)
    requires Regular(models, db) && db.version == 0 && CanRebuild(db)
    ensures var reached := BeforeRewrite(models, db);
            reached.version == 2 && reached.Has(Tracks) == db.Has(Tracks) &&
            (db.Has(Tracks) ==> reached.tables[Tracks] == Exec(models, db, RebuildPk(Tracks)).tables[Tracks])
  {
    hide Exec, Runnable, Run, AllRunnable, Actions, Program, SparesTracks;
    var acts, front := Actions(1), [Mark(1)] + Actions(2);
    var rest := front + [Mark(2)];
    EarlyPrograms();
    EarlyShape();
    RebuildsShape();
    RebuildsAreIndependent(models, db, acts, Tracks);
    var db1 := RunAll(models, db, acts);
    RunAppend(models, db, acts, rest, |acts + rest|);
    RunEnough(models, db, acts, |acts + rest|);
    AllRunnableWithoutRebuilds(models, db1, rest);
    EndsMarked(models, db1, front, 2);
    RunKeepsTracks(models, db1, rest, |rest|);
  }

  lemma SurvivorsAreMet(models: Models, db: Db, db': Db)
    requires Regular(models, db) && CanRebuild(db) && db'.Has(Tracks) == db.Has(Tracks)
    requires db.Has(Tracks) ==> db'.tables[Tracks] == Exec(models, db, RebuildPk(Tracks)).tables[Tracks]
    ensures Bounded(db') <==> SurvivorsBounded(models, db)
  {
    if db.Has(Tracks) && !db.tables[Tracks].compositePk {
      assert Runnable(db, RebuildPk(Tracks));
      var rows, columns := db.Rows(Tracks), models[Tracks] * db.tables[Tracks].columns;
      DedupeMembers(rows);
      MapRowsAt(Dedupe(rows), Project(columns));
      assert db'.Rows(Tracks) == MapRows(Dedupe(rows), Project(columns));
      if Bounded(db') && Duration in columns {
        forall i | 0 <= i < |rows| && !Superseded(rows, i) && Get(rows[i], Duration).Int?
          ensures Get(rows[i], Duration).n < REPLAY_BOUND
        {
          assert rows[i] in Dedupe(rows);
          var k :| 0 <= k < |Dedupe(rows)| && Dedupe(rows)[k] == rows[i];
          assert db'.Rows(Tracks)[k] in db'.Rows(Tracks);
        }
      }
      if SurvivorsBounded(models, db) {
        forall r | r in db'.Rows(Tracks) && Get(r, Duration).Int?
          ensures Get(r, Duration).n < REPLAY_BOUND
        {
          var k :| 0 <= k < |Dedupe(rows)| && db'.Rows(Tracks)[k] == r;
          assert Dedupe(rows)[k] in Dedupe(rows);
        }
      }
    }
  }

  lemma BlockedRebuildStops(models: Models, db: Db)
    requires db.version == 0 && !CanRebuild(db)
    ensures BeforeRewrite(models, db).version != 2
  {
    hide Exec, Runnable, Run, AllRunnable, Program, Actions, SparesTracks;
    var acts, front := Actions(1), [Mark(1)] + Actions(2);
    var program := acts + (front + [Mark(2)]);
    EarlyPrograms();
    EarlyShape();
    RebuildsShape();
    var t :| !Runnable(db, RebuildPk(t));
    RebuildsAreIndependent(models, db, acts, t);
    if AllRunnable(models, db, program) {
      AllRunnableAppend(models, db, acts, front + [Mark(2)]);
      assert false;
    }
    assert program == (acts + front) + [Mark(2)];
    forall i | 0 <= i < |program| - 1
      ensures program[i] != Mark(2)
    {
      assert program[i] == (acts + front)[i] && (acts + front)[i] in acts + front;
    }
    StopsShort(models, db, program, |program|);
  }

  /** The stored durations decide what the rewrite meets. */
  lemma RecoverableMeans(models: Models, db: Db)
    requires Regular(models, db)
    ensures Recoverable(models, db) <==> ReachesShort(models, db)
  {
    hide Exec, Runnable, Run, Bounded, SurvivorsBounded, CanRebuild;
    EarlyPrograms();
    if db.version >= 2 {
      AlreadyThere(models, db);
    } else if db.version == 1 {
      var acts := Actions(2);
      assert Program(EarlyPlan(), 1) == acts + [Mark(2)];
      assert forall a <- acts + [Mark(2)] :: SparesTracks(a) && !a.RebuildPk?;
      AllRunnableWithoutRebuilds(models, db, acts + [Mark(2)]);
      EndsMarked(models, db, acts, 2);
      RunKeepsTracks(models, db, acts + [Mark(2)], |acts + [Mark(2)]|);
      SameTracksBounded(db, BeforeRewrite(models, db));
    } else if CanRebuild(db) {
      AfterRebuilds(models, db);
      SurvivorsAreMet(models, db, BeforeRewrite(models, db));
    } else {
      BlockedRebuildStops(models, db);
    }
  }

  lemma SameTracksBounded(db: Db, db': Db)
    requires SameTracks(db, db')
    ensures Bounded(db) <==> Bounded(db')
  {
  }

  function Starts(models: Models, db: Db, budgets: seq<nat>): Db
    decreases |budgets|
  {
    if budgets == [] then db else Starts(models, Start(models, db, budgets[0]), budgets[1..])
  }

  lemma OneStartEndsAlike(models: Models, db: Db, budget: nat)
    requires Regular(models, db) && Recoverable(models, db)
    ensures var next := Start(models, db, budget);
            FullStart(models, next) == FullStart(models, db) && db.version <= next.version &&
            Regular(models, next) && Recoverable(models, next)
  {
    hide Regular, ReachesShort, Recoverable, Run, Program;
    RecoverableMeans(models, db);
    ShortPlan(models);
    InterruptedEndsAlike(models, SchemaPlan(), ReachesShortDb(models), db, budget);
    assert ReachesShortDb(models)(Start(models, db, budget));
    RecoverableMeans(models, Start(models, db, budget));
  }

  /**
   Over any sequence of interrupted starts the version never decreases, and a
   later uninterrupted start reaches the very database that one uninterrupted
   start would have reached.
   */
  lemma {:induction false} StartsConverge(models: Models, db: Db, budgets: seq<nat>)
    requires Regular(models, db) && Recoverable(models, db)
    ensures FullStart(models, Starts(models, db, budgets)) == FullStart(models, db)
    ensures db.version <= Starts(models, db, budgets).version
    ensures Regular(models, Starts(models, db, budgets)) && Recoverable(models, Starts(models, db, budgets))
    decreases |budgets|
  {
    hide Regular, Recoverable, FullStart, Start;
    if budgets != [] {
      OneStartEndsAlike(models, db, budgets[0]);
      StartsConverge(models, Start(models, db, budgets[0]), budgets[1..]);
    }
  }

  /** What follows the duration rewrite in a start at version 2. */
  function AfterRewrite(): seq<Action> {
    [Mark(3)] + Program(SchemaPlan(), 3)
  }

  lemma AfterRewriteShape()
    ensures Program(SchemaPlan(), 2) == [NormaliseDurations] + AfterRewrite()
    ensures forall a <- AfterRewrite() :: a.Mark? || (a.AddColumn? && a.table == Artists)
  {
    var plan := SchemaPlan();
    assert Program(plan, 2) == plan[2] + [Mark(3)] + Program(plan, 3);
    assert Program(plan, 3) == plan[3] + [Mark(4)] + Program(plan, 4);
  }

  /** A full start at version 2 rewrites the durations once and leaves the result alone. */
  lemma FullStartRewrites(models: Models, db: Db)
    requires db.version == 2 && db.HasColumn(Tracks, Duration)
    ensures FullStart(models, db).Has(Tracks)
    ensures FullStart(models, db).tables[Tracks] == Exec(models, db, NormaliseDurations).tables[Tracks]
  {
    hide Actions, Program, Run, AfterRewrite, MapRows, NormaliseRow, BackfillCounts, Rebuilt, Widened;
    AfterRewriteShape();
    RunCons(models, db, NormaliseDurations, AfterRewrite(), 0);
    RunKeepsTracks(models, Exec(models, db, NormaliseDurations), AfterRewrite(), |AfterRewrite()|);
  }

  /** A start that stops right after the rewrite has not moved the marker. */
  lemma StopsBeforeMarker(models: Models, db: Db)
    requires db.version == 2
    ensures Start(models, db, 1) == Exec(models, db, NormaliseDurations)
  {
    hide Exec;
    AfterRewriteShape();
    RunCons(models, db, NormaliseDurations, AfterRewrite(), 1);
  }

  /**
   A start cut off there and a full one after it divide a duration twice, where
   a single full start divides it once.
   */
  lemma DividedTwice(models: Models, db: Db, i: nat)
    requires db.version == 2 && db.HasColumn(Tracks, Duration) && i < |db.Rows(Tracks)| &&
             Duration in db.Rows(Tracks)[i]
    ensures var d, once := db.Rows(Tracks)[i][Duration], FullStart(models, db);
            var twice := FullStart(models, Start(models, db, 1));
            |once.Rows(Tracks)| == |twice.Rows(Tracks)| == |db.Rows(Tracks)| &&
            Get(once.Rows(Tracks)[i], Duration) == Seconds(d) &&
            Get(twice.Rows(Tracks)[i], Duration) == Seconds(Seconds(d))
  {
    hide Start, FullStart, Run, MapRows, BackfillCounts, Rebuilt, Widened;
    var once := Exec(models, db, NormaliseDurations);
    StopsBeforeMarker(models, db);
    FullStartRewrites(models, db);
    FullStartRewrites(models, once);
    MapRowsAt(db.Rows(Tracks), NormaliseRow());
    MapRowsAt(once.Rows(Tracks), NormaliseRow());
  }

  /** So the next start rewrites again. */
  lemma RewrittenTwice(models: Models, db: Db)
    requires db.version == 2 && !Bounded(db)
    ensures FullStart(models, Start(models, db, 1)) != FullStart(models, db)
  {
    hide BackfillCounts, Start, FullStart, Run, MapRows, NormaliseRow, Rebuilt, Widened;
    var once := Exec(models, db, NormaliseDurations);
    StopsBeforeMarker(models, db);
    FullStartRewrites(models, db);
    FullStartRewrites(models, once);
    NormaliseReplayableIff(models, db);
    var twice := Exec(models, once, NormaliseDurations);
    assert twice.tables[Tracks] == once.tables[Tracks] ==> twice.tables == once.tables;
  }

  /** A start that gets as far as the rewrite runs everything before it. */
  lemma ReachesRewrite(models: Models, db: Db)
    requires BeforeRewrite(models, db).version == 2
    ensures db.version <= 2 && AllRunnable(models, db, Program(EarlyPlan(), db.version))
    ensures Program(SchemaPlan(), db.version) == Program(EarlyPlan(), db.version) + Program(SchemaPlan(), 2)
  {
    EarlyPrograms();
    var plan, early := SchemaPlan(), Program(EarlyPlan(), db.version);
    assert Program(plan, 0) == plan[0] + [Mark(1)] + Program(plan, 1);
    assert Program(plan, 1) == plan[1] + [Mark(2)] + Program(plan, 2);
    if db.version < 2 && !AllRunnable(models, db, early) {
      StopsShort(models, db, early, |early|);
    }
  }

  /** A start with enough budget to reach the rewrite goes on from there. */
  lemma GoesOnFrom(models: Models, db: Db, budget: nat)
    requires BeforeRewrite(models, db).version == 2
    ensures Start(models, db, |Program(EarlyPlan(), db.version)| + budget) ==
              Start(models, BeforeRewrite(models, db), budget)
    ensures budget == |Program(SchemaPlan(), 2)| ==>
              FullStart(models, db) == Start(models, db, |Program(EarlyPlan(), db.version)| + budget)
  {
    hide Exec, Runnable, Program, Run, AllRunnable, Actions;
    var early := Program(EarlyPlan(), db.version);
    ReachesRewrite(models, db);
    RunAppend(models, db, early, Program(SchemaPlan(), 2), |early| + budget);
    RunEnough(models, db, early, |early| + budget);
  }

  /**
   A later full start makes up for the interruptions, however many and
   wherever they come, exactly when the stored durations that the rewrite will
   meet are below 36001000.
   */
  lemma StartsConvergeIff(models: Models, db: Db)
    requires Regular(models, db)
    ensures (forall budgets: seq<nat> :: FullStart(models, Starts(models, db, budgets)) == FullStart(models, db)) <==>
            Recoverable(models, db)
    ensures Bounded(db) ==> Recoverable(models, db)
  {
    hide Recoverable, ReachesShort, Regular, FullStart;
    if Recoverable(models, db) {
      forall budgets: seq<nat>
        ensures FullStart(models, Starts(models, db, budgets)) == FullStart(models, db)
      {
        StartsConverge(models, db, budgets);
      }
    } else {
      RecoverableMeans(models, db);
      LostByInterruption(models, db);
    }
    if Bounded(db) {
      BoundedIsRecoverable(models, db);
    }
  }

  lemma LostByInterruption(models: Models, db: Db)
    requires !ReachesShort(models, db)
    ensures exists budgets: seq<nat> :: FullStart(models, Starts(models, db, budgets)) != FullStart(models, db)
  {
    hide Exec, Runnable, Program, Run, Actions, BeforeRewrite, Bounded;
    var n := |Program(EarlyPlan(), db.version)|;
    GoesOnFrom(models, db, 1);
    GoesOnFrom(models, db, |Program(SchemaPlan(), 2)|);
    RewrittenTwice(models, BeforeRewrite(models, db));
    var next := Start(models, db, n + 1);
    assert [n + 1][1..] == [] && Starts(models, next, []) == next;
    assert Starts(models, db, [n + 1]) == next;
  }

  // ---------------------------------------------------------------- schema effects

  ghost predicate KeysInPlace(db: Db) {
    forall t <- db.tables :: db.tables[t].compositePk && DistinctKeys(db.tables[t].rows)
  }

  ghost predicate CountsInPlace(db: Db) {
    (db.Has(Albums) ==> db.HasColumn(Albums, TotalTracks)) &&
    (db.Has(Series) ==> db.HasColumn(Series, SeasonCount) && db.HasColumn(Series, EpisodeTotalCount)) &&
    (db.Has(Artists) ==> db.HasColumn(Artists, AlbumCount) && db.HasColumn(Artists, TrackTotalCount)) &&
    CountsMatch(db)
  }

  /** A row refers to another by this column, on the same instance. */
  predicate RefersTo(r: Row, column: Column, target: Row) {
    Get(r, column) == Get(target, EntryId) != Null && Get(r, ArrInstance) == Get(target, ArrInstance) != Null
  }

  /**
   In terms of the stored rows: every album has the number of its tracks, every
   series that of its episodes and their seasons, every artist that of its
   albums and of their tracks, wherever there is a table to count over.
   */
  lemma CountsInPlaceMeans(db: Db)
    ensures CountsInPlace(db) <==>
            (db.Has(Albums) ==> db.HasColumn(Albums, TotalTracks)) &&
            (db.Has(Series) ==> db.HasColumn(Series, SeasonCount) && db.HasColumn(Series, EpisodeTotalCount)) &&
            (db.Has(Artists) ==> db.HasColumn(Artists, AlbumCount) && db.HasColumn(Artists, TrackTotalCount)) &&
            (db.Has(Albums) && db.Has(Tracks) ==>
               forall a <- db.Rows(Albums) ::
                 Get(a, TotalTracks) == Int(Count(db.Rows(Tracks), (t: Row) => RefersTo(t, AlbumId, a)))) &&
            (db.Has(Series) && db.Has(Episodes) ==>
               forall s <- db.Rows(Series) ::
                 Get(s, EpisodeTotalCount) == Int(Count(db.Rows(Episodes), (e: Row) => RefersTo(e, SeriesId, s))) &&
                 Get(s, SeasonCount) == Int(Seasons(db.Rows(Episodes), s))) &&
            (db.Has(Artists) && db.Has(Albums) && db.Has(Tracks) ==>
               forall r <- db.Rows(Artists) ::
                 Get(r, AlbumCount) == Int(Count(db.Rows(Albums), (a: Row) => RefersTo(a, ArtistId, r))) &&
                 Get(r, TrackTotalCount) == Int(TrackTotal(db.Rows(Tracks), db.Rows(Albums), r)))
  {
    forall a: Row, tracks: seq<Row>
      ensures Count(tracks, TracksOf(a)) == Count(tracks, (t: Row) => RefersTo(t, AlbumId, a))
    {
      CountSame(tracks, TracksOf(a), (t: Row) => RefersTo(t, AlbumId, a));
    }
    forall s: Row, episodes: seq<Row>
      ensures Count(episodes, EpisodesOf(s)) == Count(episodes, (e: Row) => RefersTo(e, SeriesId, s))
    {
      CountSame(episodes, EpisodesOf(s), (e: Row) => RefersTo(e, SeriesId, s));
    }
    forall r: Row, albums: seq<Row>
      ensures Count(albums, AlbumsOf(r)) == Count(albums, (a: Row) => RefersTo(a, ArtistId, r))
    {
      CountSame(albums, AlbumsOf(r), (a: Row) => RefersTo(a, ArtistId, r));
    }
  }

  ghost predicate DurationsInPlace(db: Db) {
    db.HasColumn(Tracks, Duration) ==>
      forall r <- db.Rows(Tracks) :: Get(r, Duration).Int? ==> Get(r, Duration).n <= LEGACY_THRESHOLD
  }

  ghost predicate ProfileColumnsInPlace(db: Db) {
    db.Has(Artists) ==> {LastProfileSwitchTime, CurrentProfileId, OriginalProfileId} <= db.tables[Artists].columns
  }

  /** The marker tells the truth about the schema. */
  ghost predicate MarkerHonest(db: Db) {
    (db.version >= 1 ==> KeysInPlace(db)) && (db.version >= 2 ==> CountsInPlace(db)) &&
    (db.version >= 3 ==> DurationsInPlace(db)) && (db.version >= 4 ==> ProfileColumnsInPlace(db))
  }

  lemma SettledRebuild(models: Models, db: Db, t: TableName)
    requires Settled(models, db, RebuildPk(t)) && ModelsOk(models) && db.Has(t)
    ensures db.tables[t].compositePk
  {
    assert Exec(models, db, RebuildPk(t)).tables[t].compositePk;
  }

  lemma SettledNormalise(models: Models, db: Db)
    requires Settled(models, db, NormaliseDurations)
    ensures DurationsInPlace(db)
  {
    if db.HasColumn(Tracks, Duration) {
      var rows, f := db.Rows(Tracks), NormaliseRow();
      WithRowsFixed(db, Tracks, MapRows(rows, f));
      MapRowsFixed(rows, f);
      forall r | r in rows
        ensures Get(r, Duration).Int? ==> Get(r, Duration).n <= LEGACY_THRESHOLD
      {
        assert f(r) == r;
        if Duration in r {
          assert f(r)[Duration] == Seconds(r[Duration]);
        }
      }
    }
  }

  predicate SameRows(db: Db, db': Db, names: set<TableName>) {
    forall t <- names :: db'.Rows(t) == db.Rows(t)
  }

  lemma MatchDependsOnRows(db: Db, db': Db)
    ensures SameRows(db, db', {Albums, Tracks}) && CountsAlbums(db') == CountsAlbums(db) ==>
              (AlbumsMatch(db) ==> AlbumsMatch(db'))
    ensures SameRows(db, db', {Series, Episodes}) && CountsSeries(db') == CountsSeries(db) ==>
              (SeriesAllMatch(db) ==> SeriesAllMatch(db'))
    ensures SameRows(db, db', {Artists, Albums, Tracks}) && CountsArtists(db') == CountsArtists(db) ==>
              (ArtistsMatch(db) ==> ArtistsMatch(db'))
  {
  }

  lemma ColumnsAdded(models: Models, db: Db, acts: seq<Action>)
    requires AllSettled(models, db, acts)
    ensures forall i :: 0 <= i < |acts| && acts[i].AddColumn? && db.Has(acts[i].table) ==>
                          acts[i].column in db.tables[acts[i].table].columns
  {
    forall i | 0 <= i < |acts| && acts[i].AddColumn?
      ensures db.Has(acts[i].table) ==> acts[i].column in db.tables[acts[i].table].columns
    {
      AddSettledIff(models, db, acts[i]);
    }
  }

  lemma KeysFinished(models: Models, db: Db)
    requires Regular(models, db) && AllSettled(models, db, Actions(1))
    ensures KeysInPlace(db)
  {
    hide Actions;
    forall t | t in db.tables
      ensures db.tables[t].compositePk
    {
      AllTablesRebuilt(t);
      SettledRebuild(models, db, t);
    }
  }

  lemma CountsFinished(models: Models, db: Db)
    requires AllSettled(models, db, Actions(2))
    ensures CountsInPlace(db)
  {
    var acts := Actions(2);
    ColumnsAdded(models, db, acts);
    assert acts[0] == AddColumn(Albums, TotalTracks, Int(0)) && acts[1] == AddColumn(Series, SeasonCount, Int(0)) &&
           acts[2] == AddColumn(Series, EpisodeTotalCount, Int(0)) &&
           acts[3] == AddColumn(Artists, AlbumCount, Int(0)) &&
           acts[4] == AddColumn(Artists, TrackTotalCount, Int(0)) && acts[5] == Backfill;
    MatchIffBackfillFixed(db);
  }

  lemma ProfileColumnsFinished(models: Models, db: Db)
    requires AllSettled(models, db, Actions(4))
    ensures ProfileColumnsInPlace(db)
  {
    var acts := Actions(4);
    ColumnsAdded(models, db, acts);
    assert acts[0] == AddColumn(Artists, LastProfileSwitchTime, Null) &&
           acts[1] == AddColumn(Artists, CurrentProfileId, Null) &&
           acts[2] == AddColumn(Artists, OriginalProfileId, Null);
  }

  /** A finished migration has had its effect. */
  lemma FinishedHasEffect(models: Models, db: Db)
    requires db.version < TARGET_VERSION && Regular(models, db) && MarkerHonest(db)
    requires AllSettled(models, db, Actions(db.version + 1))
    ensures MarkerHonest(db.(version := db.version + 1))
  {
    MatchDependsOnRows(db, db.(version := db.version + 1));
    match db.version
    case 0 => KeysFinished(models, db);
    case 1 => CountsFinished(models, db);
    case 2 =>
      assert Actions(3)[0] == NormaliseDurations;
      SettledNormalise(models, db);
    case _ => ProfileColumnsFinished(models, db);
  }

  lemma {:induction false} TrackTotalMapped(tracks: seq<Row>, f: Row -> Row, albums: seq<Row>, artist: Row)
    requires forall t, a :: TrackOfAlbum(f(t), a) == TrackOfAlbum(t, a)
    ensures TrackTotal(MapRows(tracks, f), albums, artist) == TrackTotal(tracks, albums, artist)
  {
    if tracks != [] {
      CountSame(albums, JoinedAlbums(f(tracks[0]), artist), JoinedAlbums(tracks[0], artist));
      TrackTotalMapped(tracks[1..], f, albums, artist);
      assert MapRows(tracks, f)[1..] == MapRows(tracks[1..], f);
    }
  }

  lemma NormaliseKeepsCounts(models: Models, db: Db)
    requires CountsInPlace(db)
    ensures CountsInPlace(Exec(models, db, NormaliseDurations))
  {
    if db.HasColumn(Tracks, Duration) {
      var f, tracks := NormaliseRow(), db.Rows(Tracks);
      var db' := Exec(models, db, NormaliseDurations);
      assert db'.Rows(Tracks) == MapRows(tracks, f);
      assert forall t: Row, a: Row :: TrackOfAlbum(f(t), a) == TrackOfAlbum(t, a);
      MatchDependsOnRows(db, db');
      forall a | a in db'.Rows(Albums) && CountsAlbums(db')
        ensures AlbumMatches(db'.Rows(Tracks), a)
      {
        CountMapped(tracks, f, TracksOf(a));
        assert AlbumMatches(tracks, a);
      }
      forall r | r in db'.Rows(Artists) && CountsArtists(db')
        ensures ArtistMatches(db'.Rows(Tracks), db'.Rows(Albums), r)
      {
        TrackTotalMapped(tracks, f, db.Rows(Albums), r);
        assert ArtistMatches(tracks, db.Rows(Albums), r);
      }
    }
  }

  lemma ExtendedArtistMatches(db: Db, x: Row, c: Column)
    requires ArtistMatches(db.Rows(Tracks), db.Rows(Albums), x)
    requires c in {LastProfileSwitchTime, CurrentProfileId, OriginalProfileId}
    ensures ArtistMatches(db.Rows(Tracks), db.Rows(Albums), Extend(c, Null)(x))
  {
    SameKeySameAlbums(db.Rows(Albums), x, Extend(c, Null)(x));
    SameKeySameTrackTotal(db.Rows(Tracks), db.Rows(Albums), x, Extend(c, Null)(x));
  }

  lemma WidenedArtistsMatch(db: Db, db': Db, c: Column)
    requires ArtistsMatch(db) && SameRows(db, db', {Albums, Tracks}) && CountsArtists(db') == CountsArtists(db)
    requires c in {LastProfileSwitchTime, CurrentProfileId, OriginalProfileId}
    requires db'.Rows(Artists) == MapRows(db.Rows(Artists), Extend(c, Null))
    ensures ArtistsMatch(db')
  {
    forall r | r in db'.Rows(Artists) && CountsArtists(db')
      ensures ArtistMatches(db'.Rows(Tracks), db'.Rows(Albums), r)
    {
      MappedRowsSatisfy(db.Rows(Artists), Extend(c, Null), r);
      var x :| x in db.Rows(Artists) && Extend(c, Null)(x) == r;
      ExtendedArtistMatches(db, x, c);
    }
  }

  lemma ProfileColumnKeepsCounts(models: Models, db: Db, c: Column)
    requires CountsInPlace(db) && c in {LastProfileSwitchTime, CurrentProfileId, OriginalProfileId}
    ensures CountsInPlace(Exec(models, db, AddColumn(Artists, c, Null)))
  {
    var db' := Exec(models, db, AddColumn(Artists, c, Null));
    MatchDependsOnRows(db, db');
    if db.Has(Artists) && c !in db.tables[Artists].columns {
      WidenedArtistsMatch(db, db', c);
    } else {
      AddSettledIff(models, db, AddColumn(Artists, c, Null));
    }
  }

  lemma ExecKeepsMarkerHonest(models: Models, db: Db, a: Action)
    requires db.version < TARGET_VERSION && a in Actions(db.version + 1)
    requires Regular(models, db) && MarkerHonest(db) && Runnable(db, a)
    ensures MarkerHonest(Exec(models, db, a))
  {
    ActionsShape(db.version + 1);
    ExecKeeps(models, db, a);
    match db.version
    case 0 =>
    case 1 => if a.Backfill? { BackfillFrame(db); }
    case 2 => NormaliseKeepsCounts(models, db);
    case _ =>
      assert a.AddColumn? && a.table == Artists && a.default == Null;
      ProfileColumnKeepsCounts(models, db, a.column);
  }

  ghost function HonestDb(models: Models): Db -> bool {
    (d: Db) => Regular(models, d) && ReachesShort(models, d) && MarkerHonest(d)
  }

  lemma HonestMigration(models: Models, version: nat)
    requires version < TARGET_VERSION
    ensures Replayable(models, Actions(version + 1), version, HonestDb(models))
  {
    var acts := Actions(version + 1);
    ActionsShape(version + 1);
    forall d: Db, i: nat | IsNext(models, acts, d, i) && d.version == version && HonestDb(models)(d)
      ensures HonestDb(models)(Exec(models, d, acts[i])) && Exec(models, d, acts[i]).version == version
      ensures AllSettled(models, Exec(models, d, acts[i]), acts[..i + 1])
    {
      ShortNext(models, acts, d, i);
      ExecKeepsMarkerHonest(models, d, acts[i]);
    }
  }

  lemma HonestPlan(models: Models)
    ensures ReplayablePlan(models, SchemaPlan(), HonestDb(models))
  {
    var plan := SchemaPlan();
    forall v | 0 <= v < |plan|
      ensures Replayable(models, plan[v], v, HonestDb(models))
    {
      assert plan[v] == Actions(v + 1);
      HonestMigration(models, v);
    }
    forall d: Db | IsFinished(models, plan, d) && HonestDb(models)(d)
      ensures HonestDb(models)(d.(version := d.version + 1))
    {
      assert plan[d.version] == Actions(d.version + 1);
      ShortMark(models, d);
      FinishedHasEffect(models, d);
    }
  }

  lemma StartKeepsMarkerHonest(models: Models, db: Db, budget: nat)
    requires Regular(models, db) && Recoverable(models, db) && MarkerHonest(db)
    ensures MarkerHonest(Start(models, db, budget))
  {
    hide MarkerHonest, Regular, Recoverable, ReachesShort, Run, Program;
    HonestPlan(models);
    RecoverableMeans(models, db);
    InterruptedEndsAlike(models, SchemaPlan(), HonestDb(models), db, budget);
    assert HonestDb(models)(Start(models, db, budget));
  }

  /** After any sequence of interrupted starts, version >= k implies migration k's effect. */
  lemma {:induction false} StartsKeepMarkerHonest(models: Models, db: Db, budgets: seq<nat>)
    requires Regular(models, db) && Recoverable(models, db) && MarkerHonest(db)
    ensures MarkerHonest(Starts(models, db, budgets))
    decreases |budgets|
  {
    hide MarkerHonest, Regular, Recoverable, FullStart, Start;
    if budgets != [] {
      StartKeepsMarkerHonest(models, db, budgets[0]);
      OneStartEndsAlike(models, db, budgets[0]);
      StartsKeepMarkerHonest(models, Start(models, db, budgets[0]), budgets[1..]);
    }
  }

  lemma FullStartMarks(models: Models, db: Db)
    requires db.version == 2
    ensures FullStart(models, db).version == 4
  {
    hide Exec, Runnable, Run, AllRunnable;
    var plan := SchemaPlan();
    var front := [NormaliseDurations, Mark(3)] + Actions(4);
    assert Program(plan, 2) == plan[2] + [Mark(3)] + Program(plan, 3);
    assert Program(plan, 3) == plan[3] + [Mark(4)] + Program(plan, 4);
    assert Program(plan, 2) == front + [Mark(4)];
    assert forall a <- front + [Mark(4)] :: !a.RebuildPk?;
    AllRunnableWithoutRebuilds(models, db, front + [Mark(4)]);
    EndsMarked(models, db, front, 4);
  }

  /** One rewrite does not bring a long duration below the threshold, and nothing tries again. */
  lemma LongDurationStays(models: Models, db: Db)
    requires db.version == 2 && !Bounded(db)
    ensures !MarkerHonest(FullStart(models, db))
  {
    hide Start, FullStart, Run, MapRows, BackfillCounts, Rebuilt, Widened, KeysInPlace, CountsInPlace,
         ProfileColumnsInPlace;
    FullStartMarks(models, db);
    FullStartRewrites(models, db);
    var rows, end := db.Rows(Tracks), FullStart(models, db);
    MapRowsAt(rows, NormaliseRow());
    var r :| r in rows && Get(r, Duration).Int? && Get(r, Duration).n >= REPLAY_BOUND;
    var k :| 0 <= k < |rows| && rows[k] == r;
    assert end.Rows(Tracks)[k] in end.Rows(Tracks);
    assert Get(end.Rows(Tracks)[k], Duration) == Seconds(Get(r, Duration));
  }

  /**
   The marker stays honest through every sequence of starts, and already
   through a single uninterrupted one, exactly when the stored durations that
   the rewrite will meet are below 36001000.
   */
  lemma MarkerStaysHonestIff(models: Models, db: Db)
    requires Regular(models, db) && MarkerHonest(db)
    ensures (forall budgets: seq<nat> :: MarkerHonest(Starts(models, db, budgets))) <==> Recoverable(models, db)
    ensures MarkerHonest(FullStart(models, db)) <==> Recoverable(models, db)
  {
    hide MarkerHonest, Regular, Recoverable, ReachesShort, Run, Program, Bounded, Start;
    var n := |Program(SchemaPlan(), db.version)|;
    assert [n][1..] == [] && Starts(models, FullStart(models, db), []) == FullStart(models, db);
    assert Starts(models, db, [n]) == FullStart(models, db);
    if Recoverable(models, db) {
      forall budgets: seq<nat>
        ensures MarkerHonest(Starts(models, db, budgets))
      {
        StartsKeepMarkerHonest(models, db, budgets);
      }
    } else {
      RecoverableMeans(models, db);
      LongDurationReached(models, db);
      assert !MarkerHonest(Starts(models, db, [n]));
    }
  }

  lemma LongDurationReached(models: Models, db: Db)
    requires !ReachesShort(models, db)
    ensures !MarkerHonest(FullStart(models, db))
  {
    hide Exec, Runnable, Program, Run, Actions, BeforeRewrite, Bounded, MarkerHonest;
    GoesOnFrom(models, db, |Program(SchemaPlan(), 2)|);
    LongDurationStays(models, BeforeRewrite(models, db));
  }

  /**
   With every stored duration below 36001000, interrupted starts of a database
   at any version converge on an honest marker.
   */
  lemma BoundedStartsConverge(models: Models, db: Db, budgets: seq<nat>)
    requires Regular(models, db) && Bounded(db)
    ensures FullStart(models, Starts(models, db, budgets)) == FullStart(models, db)
    ensures db.version <= Starts(models, db, budgets).version
    ensures MarkerHonest(db) ==> MarkerHonest(Starts(models, db, budgets))
  {
    hide MarkerHonest, Regular, Recoverable, FullStart;
    BoundedIsRecoverable(models, db);
    StartsConverge(models, db, budgets);
    if MarkerHonest(db) {
      StartsKeepMarkerHonest(models, db, budgets);
    }
  }
}
