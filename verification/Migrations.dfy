/**
 Versioned schema migrations (`qBitrr/database.py`,
 `_apply_db_schema_migrations` and the v1 to v4 steps).

 A start performs atomic actions one by one and may stop after any of them,
 because the process dies or because the next action raises.  The next start
 resumes from the version marker alone, so finished actions are replayed.
 */
module Migrations {
  import opened Tables
  import opened TableRebuild
  import opened CatalogCounts

  const TARGET_VERSION := 4
  const LEGACY_THRESHOLD := 36000

  /** Durations from this value on are still above the threshold after one division. */
  const REPLAY_BOUND := 36001000

  /** The canonical columns of each Arr file table. */
  type Models = map<TableName, set<Column>>

  ghost predicate ModelsOk(models: Models) {
    forall t :: t in models && {EntryId, ArrInstance} <= models[t]
  }

  /** What SQLite and the tables' own constraints guarantee. */
  ghost predicate DbOk(db: Db) {
    forall t <- db.tables :: db.tables[t].compositePk ==> DistinctKeys(db.tables[t].rows)
  }

  // -------------------------------------------------------------------- actions

  datatype Action =
    | RebuildPk(table: TableName)
    | AddColumn(table: TableName, column: Column, default: Cell)
    | Backfill
    | NormaliseDurations
    | Mark(version: nat)

  /** SQL `Duration / 1000` where `Duration > 36000`. */
  function Seconds(c: Cell): Cell {
    if c.Int? && c.n > LEGACY_THRESHOLD then Int(c.n / 1000) else c
  }

  function NormaliseRow(): Row -> Row {
    (r: Row) => if Duration in r then r[Duration := Seconds(r[Duration])] else r
  }

  function Extend(column: Column, default: Cell): Row -> Row {
    (r: Row) => r[column := default]
  }

  function Widened(t: Table, column: Column, default: Cell): Table {
    if column in t.columns then t
    else t.(columns := t.columns + {column}, rows := MapRows(t.rows, Extend(column, default)))
  }

  /** An action that would raise instead of running: the rebuild needs the key columns. */
  predicate Runnable(db: Db, a: Action) {
    a.RebuildPk? && db.Has(a.table) && !db.tables[a.table].compositePk ==>
      {EntryId, ArrInstance} <= db.tables[a.table].columns
  }

  function Exec(models: Models, db: Db, a: Action): Db {
    match a
    case RebuildPk(t) =>
      if db.Has(t) && !db.tables[t].compositePk && t in models
      then db.(tables := db.tables[t := Rebuilt(db.tables[t], models[t])]) else db
    case AddColumn(t, c, default) =>
      if db.Has(t) then db.(tables := db.tables[t := Widened(db.tables[t], c, default)]) else db
    case Backfill => BackfillCounts(db)
    case NormaliseDurations =>
      if db.HasColumn(Tracks, Duration) then db.WithRows(Tracks, MapRows(db.Rows(Tracks), NormaliseRow())) else db
    case Mark(v) => db.(version := v)
  }

  /** The actions of the migration that leads to version `k`, without the marker. */
  function Actions(k: nat): seq<Action> {
    match k
    case 1 =>
      [RebuildPk(Movies), RebuildPk(Episodes), RebuildPk(Albums), RebuildPk(Series), RebuildPk(Artists),
       RebuildPk(Tracks), RebuildPk(Books), RebuildPk(Authors)]
    case 2 =>
      [AddColumn(Albums, TotalTracks, Int(0)), AddColumn(Series, SeasonCount, Int(0)),
       AddColumn(Series, EpisodeTotalCount, Int(0)), AddColumn(Artists, AlbumCount, Int(0)),
       AddColumn(Artists, TrackTotalCount, Int(0)), Backfill]
    case 3 => [NormaliseDurations]
    case 4 =>
      [AddColumn(Artists, LastProfileSwitchTime, Null), AddColumn(Artists, CurrentProfileId, Null),
       AddColumn(Artists, OriginalProfileId, Null)]
    case _ => []
  }

  /** The migrations in order; `plan[v]` leads from version `v` to `v + 1`. */
  type Plan = seq<seq<Action>>

  function SchemaPlan(): Plan {
    [Actions(1), Actions(2), Actions(3), Actions(4)]
  }

  /** Everything a start at version `v` has to do. */
  function Program(plan: Plan, v: nat): seq<Action>
    decreases |plan| - v
  {
    if v >= |plan| then [] else plan[v] + [Mark(v + 1)] + Program(plan, v + 1)
  }

  /** Perform actions until the budget is used up or the next one raises. */
  function Run(models: Models, db: Db, actions: seq<Action>, budget: nat): Db
    decreases |actions|
  {
    if actions == [] || budget == 0 || !Runnable(db, actions[0]) then db
    else Run(models, Exec(models, db, actions[0]), actions[1..], budget - 1)
  }

  /** A start that is interrupted after at most `budget` actions. */
  function Start(models: Models, db: Db, budget: nat): Db {
    Run(models, db, Program(SchemaPlan(), db.version), budget)
  }

  /** A start that nothing interrupts. */
  function FullStart(models: Models, db: Db): Db {
    Start(models, db, |Program(SchemaPlan(), db.version)|)
  }

  // ----------------------------------------------------------- the method itself

  class Database {
    var db: Db

    constructor (db: Db)
      ensures this.db == db
    {
      this.db := db;
    }

    method Perform(models: Models, actions: seq<Action>, budget: nat) returns (finished: bool, left: nat)
      modifies this
      ensures db == Run(models, old(db), actions, budget)
      ensures finished ==> |actions| <= budget && left == budget - |actions| && AllRunnable(models, old(db), actions)
      ensures !finished ==> !(AllRunnable(models, old(db), actions) && |actions| <= budget)
    {
      left := budget;
      ghost var start := db;
      for k := 0 to |actions|
        invariant left == budget - k && k <= budget
        invariant Run(models, start, actions, budget) == Run(models, db, actions[k..], left)
        invariant AllRunnable(models, start, actions) == AllRunnable(models, db, actions[k..])
      {
        assert actions[k..][1..] == actions[k + 1..] && actions[k..][0] == actions[k];
        if left == 0 || !Runnable(db, actions[k]) {
          return false, left;
        }
        db := Exec(models, db, actions[k]);
        left := left - 1;
      }
      assert actions[|actions|..] == [];
      finished := true;
    }

    /** One stage: re-read the marker, migrate if it is behind, and say whether the start goes on. */
    method Stage(models: Models, stage: nat, budget: nat) returns (goesOn: bool, left: nat)
      requires 1 <= stage <= 4 && stage - 1 <= db.version < TARGET_VERSION
      modifies this
      ensures Run(models, old(db), Program(SchemaPlan(), old(db).version), budget) ==
              if goesOn then Run(models, db, Program(SchemaPlan(), db.version), left) else db
      ensures goesOn ==> stage <= db.version
    {
      if db.version >= stage {
        return true, budget;
      }
      ghost var before := db;
      goesOn, left := Perform(models, Actions(stage) + [Mark(stage)], budget);
      StageRuns(models, before, stage, budget);
    }

    /** `_apply_db_schema_migrations`: four guarded stages, each of which can end the start. */
    method ApplyDbSchemaMigrations(models: Models, budget: nat)
      modifies this
      ensures db == Start(models, old(db), budget)
    {
      if db.version >= TARGET_VERSION {
        return;
      }
      var goesOn, left := Stage(models, 1, budget);
      if !goesOn || db.version >= TARGET_VERSION {
        return;
      }
      goesOn, left := Stage(models, 2, left);
      if !goesOn || db.version >= TARGET_VERSION {
        return;
      }
      goesOn, left := Stage(models, 3, left);
      if !goesOn || db.version >= TARGET_VERSION {
        return;
      }
      goesOn, left := Stage(models, 4, left);
    }
  }

  predicate AllRunnable(models: Models, db: Db, actions: seq<Action>)
    decreases |actions|
  {
    actions == [] || (Runnable(db, actions[0]) && AllRunnable(models, Exec(models, db, actions[0]), actions[1..]))
  }

  lemma {:induction false} RunAppend(models: Models, db: Db, a: seq<Action>, b: seq<Action>, budget: nat)
    ensures AllRunnable(models, db, a) && |a| <= budget ==>
              Run(models, db, a + b, budget) == Run(models, Run(models, db, a, budget), b, budget - |a|)
    ensures !(AllRunnable(models, db, a) && |a| <= budget) ==>
              Run(models, db, a + b, budget) == Run(models, db, a, budget)
    decreases |a|
  {
    if a == [] {
      assert a + b == b;
    } else {
      assert (a + b)[1..] == a[1..] + b && (a + b)[0] == a[0];
      if budget > 0 && Runnable(db, a[0]) {
        RunAppend(models, Exec(models, db, a[0]), a[1..], b, budget - 1);
      }
    }
  }

  lemma StageRuns(models: Models, db: Db, stage: nat, budget: nat)
    requires 1 <= stage <= 4 && db.version == stage - 1
    ensures var part := Actions(stage) + [Mark(stage)];
            var after := Run(models, db, part, budget);
            if AllRunnable(models, db, part) && |part| <= budget
            then after.version == stage &&
                 Run(models, db, Program(SchemaPlan(), db.version), budget) ==
                   Run(models, after, Program(SchemaPlan(), stage), budget - |part|)
            else Run(models, db, Program(SchemaPlan(), db.version), budget) == after
  {
    hide Runnable, Actions, Exec;
    var acts := Actions(stage);
    RunAppend(models, db, acts + [Mark(stage)], Program(SchemaPlan(), stage), budget);
    RunAppend(models, db, acts, [Mark(stage)], budget);
    if AllRunnable(models, db, acts + [Mark(stage)]) && |acts| + 1 <= budget {
      AllRunnableAppend(models, db, acts, [Mark(stage)]);
      MarkRuns(models, Run(models, db, acts, budget), stage, budget - |acts|);
    }
  }

  lemma MarkRuns(models: Models, db: Db, v: nat, budget: nat)
    requires budget > 0
    ensures Run(models, db, [Mark(v)], budget).version == v
  {
  }

  lemma {:induction false} AllRunnableAppend(models: Models, db: Db, a: seq<Action>, b: seq<Action>)
    requires AllRunnable(models, db, a + b)
    ensures AllRunnable(models, db, a)
    decreases |a|
  {
    if a != [] {
      assert (a + b)[1..] == a[1..] + b && (a + b)[0] == a[0];
      AllRunnableAppend(models, Exec(models, db, a[0]), a[1..], b);
    }
  }
}
