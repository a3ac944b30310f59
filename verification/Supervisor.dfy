/**
 The process supervisor (`ProcessLifecycle` and the loop of `qBitManager.run`).

 It keeps a child list, a registry and a list of pending spawns, and starts
 workers in four places: at startup, after a crash, in a coordinated restart
 and when retrying pending spawns.  Worker processes die when they please.
 */
module Supervisor {
  import opened Wrappers
  import opened Sequences
  import opened RestartWindow
  import opened ProcessTable
  import opened WorkerTable

  function Times(m: map<Key, seq<real>>, k: Key): seq<real> {
    if k in m then m[k] else []
  }

  /** What a qBit category worker is registered under. */
  function CategoryKey(instance: string): Key {
    Key("qbit-" + instance, CategoryManager)
  }

  lemma CategoryKeyInjective(a: string, b: string)
    ensures CategoryKey(a) == CategoryKey(b) ==> a == b
  {
    assert a == ("qbit-" + a)[5..] && b == ("qbit-" + b)[5..];
  }

  class QbitManager {
    const settings: Settings
    const env: Environment

    // Supervisor state.
    var children: seq<Proc>
    var registry: map<Proc, Key>
    var pending: seq<Key>
    var failedAttempts: map<Key, nat>
    var restartTimes: map<Key, seq<real>>
    var databaseRestart: bool
    var searchProcess: map<string, Proc>

    // The surroundings.
    var os: Os
    var ticks: nat
    var asks: nat
    var spawns: nat
    var clock: real

    // History.
    ghost var doubled: bool                 // a worker was started while another for its key was live
    ghost var dirtyRestart: bool            // a coordinated restart began with pending spawns
    ghost var restarts: map<Key, seq<real>> // when `_restart_process` started a worker

    ghost function View(): Table
      reads this
    {
      Table(children, registry, pending, failedAttempts, os, doubled)
    }

    /** Children that have not been started yet are managed workers. */
    ghost predicate Prepared()
      reads this
    {
      forall p :: p in children && p in os.status && p in os.target && os.status[p] == Unstarted ==>
                    settings.IsManaged(os.target[p])
    }

    /** Every spawn works. */
    ghost predicate AllSpawn() {
      forall n :: env.spawn(n).SpawnOk?
    }

    /** A listed process that has not been started. */
    predicate Untried(p: Proc)
      reads `children, `os
    {
      p in children && p in os.status && os.status[p] == Unstarted
    }

    ghost predicate SearchesKnown()
      reads this
    {
      forall c :: c in searchProcess ==> searchProcess[c] < os.next
    }

    /** The restart limit has held so far. */
    ghost predicate Limited()
      reads `restartTimes, `restarts, `clock
    {
      restartTimes.Keys == restarts.Keys &&
      forall k :: k in restarts ==> Keeps(restartTimes[k], restarts[k], clock, settings.window) &&
                                    WithinLimit(restarts[k], settings.window, settings.maxRestarts)
    }

    constructor (settings: Settings, env: Environment)
      ensures this.settings == settings && this.env == env
      ensures View() == Table([], map[], [], map[], Os(map[], map[], 0), false)
      ensures View().Valid() && View().Exclusive() && SearchesKnown() && Limited() && !dirtyRestart
      ensures !databaseRestart && spawns == 0 && ticks == 0 && asks == 0
    {
      this.settings := settings;
      this.env := env;
      children, registry, pending := [], map[], [];
      failedAttempts, restartTimes, databaseRestart, searchProcess := map[], map[], false, map[];
      os, ticks, asks, spawns, clock := Os(map[], map[], 0), 0, 0, 0, 0.0;
      doubled, dirtyRestart, restarts := false, false, map[];
    }

    // ------------------------------------------------------------ the environment

    /** `proc.is_alive()`: the process may be found to have died. */
    method IsAlive(p: Proc) returns (alive: bool)
      requires View().Valid() && p in os.status
      modifies `os, `ticks
      ensures View().Valid() && Kept(old(View()), View(), p) && Shrunk(old(View()), View())
      ensures View().Running() == old(View().Running()) && (old(View().SingleWorkers()) ==> View().SingleWorkers())
      ensures var found := env.probe(p, old(ticks));
              os == if old(os).Live(p) && found.FoundDead? then old(os).Set(p, Exited(found.code)) else old(os)
      ensures LiveKeys(os) <= LiveKeys(old(os))
      ensures alive <==> os.Live(p)
      ensures ticks == old(ticks) + 1 && (env.QuietFrom(old(ticks)) ==> os == old(os))
    {
      hide Table.Valid, Table.Running, Table.SingleWorkers, LiveKeys;
      ChildrenStay(View());
      var found := env.probe(p, ticks);
      if os.Live(p) && found.FoundDead? {
        DiesFacts(View(), p, found.code);
        os := os.Set(p, Exited(found.code));
      }
      ticks := ticks + 1;
      alive := os.Live(p);
    }

    /** `database_restart_event.is_set()` */
    method RestartRequested() returns (b: bool)
      modifies `databaseRestart, `asks
      ensures b <==> databaseRestart
      ensures databaseRestart <==> old(databaseRestart) || env.signal(old(asks))
      ensures asks == old(asks) + 1
    {
      databaseRestart := databaseRestart || env.signal(asks);
      asks := asks + 1;
      b := databaseRestart;
    }

    /** `time.time()` */
    method Time() returns (now: real)
      modifies `clock, `ticks
      ensures now == clock && old(clock) <= clock && ticks == old(ticks) + 1
      ensures old(Limited()) ==> Limited()
    {
      clock := clock + env.elapses(ticks);
      ticks := ticks + 1;
      now := clock;
      if old(Limited()) {
        forall k | k in restarts
          ensures Keeps(restartTimes[k], restarts[k], clock, settings.window)
        {
          LaterKeeps(restartTimes[k], restarts[k], old(clock), clock, settings.window);
        }
      }
    }

    // ----------------------------------------------------------- lifecycle helpers

    /** `_enqueue_failed_spawn` */
    method EnqueueFailedSpawn(k: Key)
      modifies `pending, `failedAttempts
      ensures View() == Enqueue(old(View()), k)
      ensures pending == old(pending) + if k in old(pending) then [] else [k]
      ensures var count := if k in old(failedAttempts) then old(failedAttempts)[k] else 0;
              failedAttempts == old(failedAttempts)[k := count + 1]
    {
      failedAttempts := failedAttempts[k := Attempts(failedAttempts, k) + 1];
      if k !in pending {
        pending := pending + [k];
      }
    }

    /** `_discard_unstarted_spawn` */
    method DiscardSpawn(p: Proc)
      modifies `children, `registry
      ensures View() == Discard(old(View()), p)
      ensures registry == old(registry) - {p}
      ensures forall q :: q in children <==> q in old(children) && q != p
    {
      WithoutMembers(children, p);
      registry := registry - {p};
      children := Without(children, p);
    }

    /** `proc.start()` on an unstarted child, the liveness check a moment later, and the clean-up if it is not up. */
    method StartOrDiscard(p: Proc) returns (up: bool)
      requires p in os.status && p in os.target && os.status[p] == Unstarted
      modifies `os, `children, `registry, `doubled
      ensures View() == Start(old(View()), env, p)
      ensures up <==> env.start(p).StartRuns?
    {
      var outcome := env.start(p);
      doubled := doubled || (!outcome.StartRaises? && os.target[p] in LiveKeys(os));
      os := os.Set(p, env.After(p));
      up := outcome.StartRuns?;
      if !up {
        DiscardSpawn(p);
      }
    }

    // --------------------------------------------------------------------- startup

    /** How the spawn sites tell roles apart: by comparing with the instance's search process. */
    function RoleOf(category: string, p: Proc): Role
      reads `searchProcess
    {
      if category in searchProcess && searchProcess[category] == p then Search else Torrent
    }

    /** A new process object, listed as a child. */
    method CreateChild(k: Key) returns (p: Proc)
      requires SearchesKnown()
      modifies `children, `os
      ensures SearchesKnown()
      ensures p == old(os).next && os == old(os).New(k) && children == old(children) + [p]
    {
      p := os.next;
      children := children + [p];
      os := os.New(k);
    }

    /** `spawn_child_processes`: the new processes are listed as children at once, even if it then raises. */
    method SpawnChildProcesses(category: string) returns (ok: bool, procs: seq<Proc>)
      requires SearchesKnown()
      modifies `children, `os, `searchProcess, `spawns
      ensures SearchesKnown()
      ensures spawns == old(spawns) + 1 && (ok <==> env.spawn(old(spawns)).SpawnOk?)
      ensures var keys := settings.Created(category, env.spawn(old(spawns)));
              View() == Spawn(old(View()), keys) &&
              procs == (if ok then Ids(old(os).next, |keys|) else []) &&
              forall i :: 0 <= i < |keys| ==> RoleOf(category, old(os).next + i) == keys[i].role
    {
      hide Spawn, Ids, Settings.Created;
      var outcome := env.spawn(spawns);
      settings.CreatedCases(category, outcome);
      SpawnFew(View(), Key(category, Search), Key(category, Torrent));
      SpawnFew(View(), Key(category, Torrent), Key(category, Torrent));
      spawns := spawns + 1;
      procs := [];
      if outcome.SpawnRaises? {
        return false, [];
      }
      if category in settings.searchMissing {
        var p := CreateChild(Key(category, Search));
        searchProcess := searchProcess[category := p];
        procs := procs + [p];
      }
      if outcome.SpawnRaisesMidway? {
        return false, [];
      }
      if settings.torrentLoops {
        var p := CreateChild(Key(category, Torrent));
        procs := procs + [p];
      }
      ok := true;
    }

    method RegisterSpawned(category: string, procs: seq<Proc>)
      requires View().Valid()
      requires forall p <- procs :: p in os.target && os.target[p] == Key(category, RoleOf(category, p))
      modifies `registry
      ensures View().Valid() && (old(SearchesKnown()) ==> SearchesKnown())
      ensures forall p :: p in registry <==> p in old(registry) || p in procs
    {
      hide Consistent, Tracked;
      for i := 0 to |procs|
        invariant View().Valid()
        invariant forall p :: p in registry <==> p in old(registry) || p in procs[..i]
      {
        RegisterKeeps(children, registry, os, procs[i], os.target[procs[i]]);
        registry := registry[procs[i] := Key(category, RoleOf(category, procs[i]))];
        assert procs[..i + 1] == procs[..i] + [procs[i]];
      }
      assert procs[..|procs|] == procs;
    }

    /** `_prepare_arr_processes`: spawn one instance's workers and register them. */
    method PrepareArrProcesses(category: string)
      requires View().Valid() && SearchesKnown()
      modifies `children, `registry, `os, `searchProcess, `spawns
      ensures View().Valid() && SearchesKnown() && spawns == old(spawns) + 1
      ensures var keys := settings.Created(category, env.spawn(old(spawns)));
              os == Create(old(os), keys) && children == old(children) + Ids(old(os).next, |keys|) &&
              forall p :: p in registry <==> p in old(registry) ||
                                             (env.spawn(old(spawns)).SpawnOk? && p in Ids(old(os).next, |keys|))
    {
      hide Table.Valid, Table.Running, Table.SingleWorkers, LiveKeys, Create, SearchesKnown;
      ghost var keys := settings.Created(category, env.spawn(spawns));
      SpawnFacts(View(), keys);
      var ok, procs := SpawnChildProcesses(category);
      forall p | p in procs
        ensures p in os.target && os.target[p] == Key(category, RoleOf(category, p))
      {
        assert View().Waits(old(os).next + (p - old(os).next), keys[p - old(os).next]);
        assert keys[p - old(os).next].category == category;
      }
      RegisterSpawned(category, procs);
    }

    lemma SomeChild(first: nat, k: Key)
      requires View().Valid() && AllSpawn() && settings.IsManaged(k)
      requires settings.Covers(Targets(children, os.target), |settings.categories|, env, first)
      ensures children != [] && forall p <- children :: p < os.next
    {
      var i :| 0 <= i < |settings.categories| && settings.categories[i] == k.category;
      settings.CreatedAreManaged(k.category, env.spawn(first + i));
      assert k in Targets(children, os.target);
    }

    /**
     `_complete_startup`, the managed instances: no worker is prepared twice,
     and the children and the registry are exactly what the spawns created and
     reported.
     */
    method PrepareAll()
      requires View().Valid() && SearchesKnown() && children == [] && registry == map[] && Distinct(settings.categories)
      modifies `children, `registry, `os, `searchProcess, `spawns
      ensures View().Valid() && SearchesKnown() && Unique(children, os.target)
      ensures settings.Covers(Targets(children, os.target), |settings.categories|, env, old(spawns))
      ensures settings.Registers(children, registry, os.target, |settings.categories|, env, old(spawns))
      ensures forall p <- children :: Untried(p)
      ensures children != [] ==> old(os).next in children
    {
      hide Targets, Unique, Settings.Covers, Settings.Registers, SearchesKnown;
      settings.NothingPrepared(os.target, env, spawns);
      for i := 0 to |settings.categories|
        invariant SearchesKnown() && spawns == old(spawns) + i && Preparing(i, old(spawns), old(os).next)
      {
        PrepareNext(i, old(spawns), old(os).next);
      }
    }

    /** The instances before number `i` are prepared. */
    ghost predicate Preparing(i: nat, first: nat, firstProc: Proc)
      requires i <= |settings.categories|
      reads this
    {
      View().Valid() && Unique(children, os.target) &&
      settings.Covers(Targets(children, os.target), i, env, first) &&
      settings.Registers(children, registry, os.target, i, env, first) &&
      (forall p <- children :: Untried(p)) &&
      if children == [] then os.next == firstProc else firstProc in children
    }

    method PrepareNext(i: nat, ghost first: nat, ghost firstProc: Proc)
      requires i < |settings.categories| && Distinct(settings.categories) && spawns == first + i
      requires SearchesKnown() && Preparing(i, first, firstProc)
      modifies `children, `registry, `os, `searchProcess, `spawns
      ensures SearchesKnown() && spawns == old(spawns) + 1 && Preparing(i + 1, first, firstProc)
    {
      hide Targets, Unique, Settings.Covers, Settings.Registers, Settings.Created, SearchesKnown, Create, Ids, Tracked;
      ghost var keys := settings.Created(settings.categories[i], env.spawn(spawns));
      settings.CoversNext(Targets(children, os.target), i, env, first);
      CreateUnique(children, registry, os, keys);
      CreatedUnstarted(children, os, keys);
      CreatedFirst(os, keys);
      PrepareArrProcesses(settings.categories[i]);
      settings.RegistersNext(old(children), old(registry), registry, old(os), i, env, first);
    }

    /** A category worker whose start did not raise is tracked. */
    method TrackCategoryWorker(k: Key)
      requires View().Valid() && Unique(children, os.target) && k !in Targets(children, os.target)
      requires Prepared() && !env.start(os.next).StartRaises?
      modifies `children, `registry, `os, `doubled
      ensures View().Valid() && Prepared() && Unique(children, os.target) && doubled == old(doubled)
      ensures os == old(os).New(k).Set(old(os).next, env.After(old(os).next))
      ensures children == old(children) + [old(os).next] && registry == old(registry)[old(os).next := k]
      ensures Targets(children, os.target) == old(Targets(children, os.target)) + {k}
    {
      hide Consistent, Tracked, Unique, Targets, LiveKeys, Settings.IsManaged;
      var p := os.next;
      LaunchTracked(children, registry, os, k, env.After(p));
      doubled := doubled || k in LiveKeys(os);
      os := os.New(k).Set(p, env.After(p));
      children := children + [p];
      registry := registry[p := k];
    }

    /** One step of `_spawn_qbit_category_workers`: started first, tracked only if that did not raise. */
    method SpawnQbitCategoryWorker(k: Key)
      requires View().Valid() && SearchesKnown() && Prepared()
      requires Unique(children, os.target) && k !in Targets(children, os.target)
      modifies `children, `registry, `os, `doubled
      ensures View().Valid() && SearchesKnown() && Prepared() && Unique(children, os.target) && doubled == old(doubled)
      ensures os.next > old(os.next) && forall p :: old(Untried(p)) ==> Stays(p, old(os), old(registry))
      ensures os == old(os).New(k).Set(old(os).next, env.After(old(os).next))
      ensures if env.start(old(os).next).StartRaises?
              then children == old(children) && registry == old(registry) &&
                   Targets(children, os.target) == old(Targets(children, os.target))
              else children == old(children) + [old(os).next] && registry == old(registry)[old(os).next := k] &&
                   Targets(children, os.target) == old(Targets(children, os.target)) + {k}
    {
      hide Consistent, Tracked, Unique, Targets, LiveKeys, Settings.IsManaged;
      NewUntracked(children, registry, os, k);
      if env.start(os.next).StartRaises? {
        NewKeeps(children, registry, os, k, children);
        assert os.New(k) == os.New(k).Set(os.next, Unstarted);
        os := os.New(k);
      } else {
        TrackCategoryWorker(k);
      }
    }

    /** The process is still waiting to be started, and as much registered as before. */
    ghost predicate Stays(p: Proc, before: Os, known: map<Proc, Key>)
      reads this
    {
      Untried(p) && p in before.target && p in os.target && os.target[p] == before.target[p] &&
      (p in registry <==> p in known)
    }

    lemma NothingMoved()
      requires View().Valid() && forall k <- Targets(children, os.target) :: settings.IsManaged(k)
      ensures Prepared() && forall p :: Untried(p) ==> Stays(p, os, registry)
    {
    }

    /** `_spawn_qbit_category_workers` */
    method SpawnQbitCategoryWorkers(instances: seq<string>)
      requires View().Valid() && SearchesKnown() && Unique(children, os.target) && Distinct(instances)
      requires forall k <- Targets(children, os.target) :: settings.IsManaged(k)
      modifies `children, `registry, `os, `doubled
      ensures View().Valid() && SearchesKnown() && Prepared() && Unique(children, os.target) && doubled == old(doubled)
      ensures os.next >= old(os.next)
      ensures forall p :: old(Untried(p)) ==> Stays(p, old(os), old(registry))
      ensures forall k <- Targets(children, os.target) ::
                k in old(Targets(children, os.target)) || k.role == CategoryManager
      ensures forall p <- registry :: p in old(registry) || registry[p].role == CategoryManager
    {
      hide Table.Valid, Targets, Unique, Prepared, SearchesKnown, Environment.After;
      NothingMoved();
      for i := 0 to |instances|
        invariant View().Valid() && SearchesKnown() && Prepared() && Unique(children, os.target) &&
                  doubled == old(doubled)
        invariant os.next >= old(os.next)
        invariant forall p :: old(Untried(p)) ==> Stays(p, old(os), old(registry))
        invariant forall k <- Targets(children, os.target) ::
                    k in old(Targets(children, os.target)) || k.role == CategoryManager
        invariant forall p <- registry :: p in old(registry) || registry[p].role == CategoryManager
        invariant forall j, k :: i <= j < |instances| && k in Targets(children, os.target) ==>
                    k != CategoryKey(instances[j])
      {
        forall j | i < j < |instances|
          ensures CategoryKey(instances[i]) != CategoryKey(instances[j])
        {
          CategoryKeyInjective(instances[i], instances[j]);
        }
        SpawnQbitCategoryWorker(CategoryKey(instances[i]));
      }
    }

    function Lookup(p: Proc): Option<Key>
      reads `registry
    {
      if p in registry then Some(registry[p]) else None
    }

    /** One step of the start loop of `run`; a process already started is left alone. */
    method StartChild(p: Proc) returns (failed: bool)
      requires View().Valid() && Prepared() && Unique(children, os.target) && p in children
      modifies `os, `ticks, `children, `registry, `doubled
      ensures View().Valid() && Prepared() && Unique(children, os.target) && doubled == old(doubled)
      ensures os.target == old(os).target && os.next == old(os).next
      ensures forall q :: q in old(os).status && q != p ==> q in os.status && os.status[q] == old(os).status[q]
      ensures children == if failed then Without(old(children), p) else old(children)
      ensures registry == if failed then old(registry) - {p} else old(registry)
      ensures forall q :: q in children <==> q in old(children) && (q != p || !failed)
      ensures failed <==> old(os).status[p] == Unstarted && !env.start(p).StartRuns?
      ensures failed ==> os.target[p] !in Targets(children, os.target)
      ensures Targets(children, os.target) <= old(Targets(children, os.target))
      ensures View().Running() >= old(View().Running())
      ensures old(os).status[p] == Unstarted && !failed ==> os.target[p] in View().Running()
    {
      hide Tracked, Single, StartedKeys, Targets, Unique, LiveKeys;
      WithoutMembers(children, p);
      var alive := IsAlive(p);
      if os.status[p] != Unstarted {
        return false;
      }
      StartUnique(View(), env, p);
      var up := StartOrDiscard(p);
      failed := !up;
    }

    /** Queue the failed workers of managed instances for retry. */
    method EnqueueFailures(failed: seq<Option<Key>>)
      requires pending == [] && forall f <- failed :: f.Some? ==> settings.IsManaged(f.value)
      modifies `pending, `failedAttempts
      ensures Distinct(pending) && forall k :: k in pending <==> Some(k) in failed
    {
      for i := 0 to |failed|
        invariant Distinct(pending) && forall k :: k in pending <==> Some(k) in failed[..i]
      {
        assert failed[..i + 1] == failed[..i] + [failed[i]];
        if failed[i].Some? && failed[i].value.category in settings.categories {
          EnqueueFailedSpawn(failed[i].value);
        }
      }
      assert failed[..|failed|] == failed;
    }

    /**
     Each of these that was not started yet now runs if its start works, and
     else is noted as failed if it was registered.
     */
    ghost predicate Handled(procs: seq<Proc>, before: Os, known: map<Proc, Key>, failed: seq<Option<Key>>)
      reads this
    {
      forall p <- procs :: p in before.status && before.status[p] == Unstarted && p in before.target ==>
                             if env.start(p).StartRuns? then before.target[p] in View().Running()
                             else p in known ==> Some(before.target[p]) in failed
    }

    /** Failed workers were registered and are managed, and no tracked process is left for them. */
    ghost predicate Gone(failed: seq<Option<Key>>, known: map<Proc, Key>)
      reads this
    {
      forall f <- failed :: f.Some? ==> f.value in known.Values && settings.IsManaged(f.value) &&
                                        f.value !in Targets(children, os.target)
    }

    /** These are still to be looked at. */
    ghost predicate Waiting(procs: seq<Proc>, before: Os, known: map<Proc, Key>)
      reads this
    {
      forall p <- procs :: p in children && p in os.status && p in before.status && os.status[p] == before.status[p] &&
                           (p in registry <==> p in known)
    }

    lemma WaitingAll()
      requires View().Valid()
      ensures Waiting(children[0..], os, registry) && Handled(children[..0], os, registry, []) && Gone([], registry)
      ensures Distinct(children) && forall q <- registry :: q in os.target && registry[q] == os.target[q]
    {
    }

    lemma WaitingSplit(procs: seq<Proc>, i: nat, before: Os, known: map<Proc, Key>)
      requires i < |procs| && Distinct(procs) && Waiting(procs[i..], before, known)
      ensures Waiting([procs[i]], before, known) && Waiting(procs[i + 1..], before, known)
      ensures procs[i] !in procs[i + 1..] && procs[..i + 1] == procs[..i] + [procs[i]]
    {
      assert procs[i..] == [procs[i]] + procs[i + 1..];
    }

    method StartNext(p: Proc, failed: seq<Option<Key>>, ghost done: seq<Proc>, ghost before: Os,
                     ghost known: map<Proc, Key>)
      returns (failed': seq<Option<Key>>)
      requires View().Valid() && Prepared() && Unique(children, os.target) && Waiting([p], before, known)
      requires before.target == os.target && forall q <- known :: q in os.target && known[q] == os.target[q]
      requires Handled(done, before, known, failed) && Gone(failed, known)
      modifies `os, `ticks, `children, `registry, `doubled
      ensures View().Valid() && Prepared() && Unique(children, os.target) && doubled == old(doubled)
      ensures os.target == old(os).target && os.next == old(os).next
      ensures forall qs :: old(Waiting(qs, before, known)) && p !in qs ==> Waiting(qs, before, known)
      ensures Targets(children, os.target) <= old(Targets(children, os.target))
      ensures Handled(done + [p], before, known, failed') && Gone(failed', known)
      ensures env.start(p).StartRuns? && failed == [] ==> failed' == []
    {
      hide Table.Valid, Table.Running, Targets, Unique, Without;
      assert p in [p];
      ChildFacts(View(), p);
      var meta := Lookup(p);
      var f := StartChild(p);
      failed' := if f then failed + [meta] else failed;
    }

    /** The start loop of `run`. */
    method StartChildren() returns (failed: seq<Option<Key>>)
      requires View().Valid() && Prepared() && Unique(children, os.target)
      modifies `os, `ticks, `children, `registry, `doubled
      ensures View().Valid() && Prepared() && Unique(children, os.target) && doubled == old(doubled)
      ensures os.target == old(os).target && os.next == old(os).next
      ensures Targets(children, os.target) <= old(Targets(children, os.target))
      ensures Handled(old(children), old(os), old(registry), failed) && Gone(failed, old(registry))
      ensures (forall p :: env.start(p).StartRuns?) ==> failed == []
    {
      hide *;
      WaitingAll();
      var todo := children;
      failed := [];
      for i := 0 to |todo|
        invariant View().Valid() && Prepared() && Unique(children, os.target) && doubled == old(doubled)
        invariant os.target == old(os).target && os.next == old(os).next
        invariant Waiting(todo[i..], old(os), old(registry))
        invariant Targets(children, os.target) <= old(Targets(children, os.target))
        invariant Handled(todo[..i], old(os), old(registry), failed) && Gone(failed, old(registry))
        invariant (forall p :: env.start(p).StartRuns?) ==> failed == []
      {
        WaitingSplit(todo, i, old(os), old(registry));
        failed := StartNext(todo[i], failed, todo[..i], old(os), old(registry));
      }
      assert todo[..|todo|] == todo;
    }

    /**
     The start of `run`.  Afterwards the workers are exclusive; every one not
     started before is running if its start works, and else is queued for retry
     if it is registered.
     */
    method StartAll()
      requires View().Valid() && SearchesKnown() && Prepared() && Unique(children, os.target) && pending == [] &&
               !doubled
      modifies `os, `ticks, `children, `registry, `doubled, `pending, `failedAttempts
      ensures View().Valid() && SearchesKnown() && View().Exclusive() && View().PendingManaged(settings)
      ensures os.target == old(os).target && os.next == old(os).next
      ensures forall p :: old(Untried(p)) && p in os.target ==>
                            if env.start(p).StartRuns? then os.target[p] in View().Running()
                            else p in old(registry) ==> os.target[p] in pending
      ensures forall k <- pending :: k in old(registry).Values
      ensures View().Running() <= old(Targets(children, os.target))
      ensures (forall p :: env.start(p).StartRuns?) ==> pending == []
    {
      var failed := StartChildren();
      UniqueMeans(children, registry, os);
      EnqueueFailures(failed);
      if pending != [] {
        assert pending[0] in pending;
      }
    }

    // --------------------------------------------------------- coordinated restart

    /** Terminate every child, then kill whatever is still alive. */
    method KillAll()
      requires View().Valid()
      modifies `os, `ticks
      ensures View().Valid() && os.target == old(os).target && os.next == old(os).next
      ensures (forall p :: !os.Live(p)) && ticks >= old(ticks)
    {
      hide Single, StartedKeys, LiveKeys, Shrunk, Kept;
      for i := 0 to |children|
        invariant View().Valid() && os.target == old(os).target && os.next == old(os).next && ticks >= old(ticks)
      {
        // A termination request takes effect when a later observation finds the process dead.
        var alive := IsAlive(children[i]);
      }
      for i := 0 to |children|
        invariant View().Valid() && os.target == old(os).target && os.next == old(os).next && ticks >= old(ticks)
        invariant forall j :: 0 <= j < i ==> !os.Live(children[j])
      {
        var alive := IsAlive(children[i]);
        if alive {
          DeathKeeps(children, registry, os, children[i], -9);
          os := os.Set(children[i], Exited(-9));
        }
      }
    }

    /** Register and start one respawned worker, or queue it for retry. */
    method RespawnWorker(category: string, p: Proc)
      requires View().Waits(p, Key(category, RoleOf(category, p)))
      modifies `os, `children, `registry, `pending, `failedAttempts, `doubled
      ensures View() == Respawn(old(View()), env, p, Key(category, RoleOf(category, p))) && os.next == old(os.next)
    {
      var k := Key(category, RoleOf(category, p));
      registry := registry[p := k];
      var up := StartOrDiscard(p);
      if !up {
        EnqueueFailedSpawn(k);
      }
    }

    method RespawnSpawned(category: string, procs: seq<Proc>, ghost first: Proc, ghost keys: seq<Key>)
      requires View().Valid() && View().AllUp() && View().SingleWorkers()
      requires AllWait(View(), first, keys, 0) && Distinct(keys) && forall k <- keys :: k !in View().Running()
      requires |procs| == |keys| && forall i :: 0 <= i < |keys| ==> procs[i] == first + i
      requires forall i :: 0 <= i < |keys| ==> keys[i] == Key(category, RoleOf(category, first + i))
      modifies `os, `children, `registry, `pending, `failedAttempts, `doubled
      ensures View() == RespawnProcs(old(View()), env, first, keys, |keys|) && os.next == old(os.next)
    {
      hide Table.Valid, Table.AllUp, Table.Waits, Table.Running, Respawn, Respawns, AllWait;
      for i := 0 to |procs|
        invariant View() == RespawnProcs(old(View()), env, first, keys, i) && os.next == old(os.next)
      {
        RespawnProcsFacts(old(View()), env, first, keys, i);
        NextWaits(View(), first, keys, i);
        RespawnWorker(category, procs[i]);
      }
    }

    /** One managed instance of a coordinated restart. */
    method RespawnInstance(category: string)
      requires View().Valid() && SearchesKnown()
      requires View().AllUp() && View().SingleWorkers() && settings.KeysOf(category) !! View().Running()
      modifies `os, `children, `registry, `pending, `failedAttempts, `doubled, `searchProcess, `spawns
      ensures View() == RespawnArr(old(View()), settings, env, category, env.spawn(old(spawns)))
      ensures SearchesKnown() && spawns == old(spawns) + 1
    {
      hide Table.Valid, Table.Waits, Table.Running, Table.SingleWorkers, LiveKeys, RespawnProcs, EnqueueAll, AllWait,
           Create;
      ghost var outcome := env.spawn(spawns);
      ghost var keys, first := settings.Created(category, outcome), os.next;
      SpawnFacts(View(), keys);
      SpawnLeaves(View(), keys);
      settings.CreatedKeys(category);
      var ok, procs := SpawnChildProcesses(category);
      if ok {
        RespawnSpawned(category, procs, first, keys);
      } else {
        EnqueueExpected(category);
      }
    }

    /** Queue every role an instance's spawn should have created. */
    method EnqueueExpected(category: string)
      modifies `pending, `failedAttempts
      ensures var expected := settings.Created(category, SpawnOk);
              View() == EnqueueAll(old(View()), expected, |expected|)
    {
      var roles := settings.Roles(category);
      ghost var expected := settings.Created(category, SpawnOk);
      for i := 0 to |roles|
        invariant |expected| == |roles| && View() == EnqueueAll(old(View()), expected, i)
      {
        EnqueueFailedSpawn(Key(category, roles[i]));
        assert expected[i] == Key(category, roles[i]);
      }
    }

    /** Stop every worker and forget them all. */
    method ClearAll()
      requires View().Valid() && SearchesKnown()
      modifies `os, `ticks, `children, `registry, `databaseRestart
      ensures View().Valid() && SearchesKnown() && View().children == [] && !databaseRestart
      ensures View().pending == old(View().pending) && View().doubled == old(View().doubled)
      ensures View().os.next == old(View().os.next) && ticks >= old(ticks)
      ensures old(View().PendingManaged(settings)) ==> View().PendingManaged(settings)
    {
      KillAll();
      NothingTracked(View());
      children, registry := [], map[];
      databaseRestart := false;
    }

    /** The respawns of a coordinated restart, from cleared lists. */
    method RespawnInstances()
      requires View().Valid() && SearchesKnown() && Distinct(settings.categories) && View().children == []
      modifies `os, `children, `registry, `pending, `failedAttempts, `doubled, `searchProcess, `spawns
      ensures SearchesKnown() && spawns == old(spawns) + |settings.categories|
      ensures View() == RespawnAll(old(View()), settings, env, old(spawns), |settings.categories|)
    {
      hide Table.Valid, Table.AllUp, Table.SingleWorkers, RespawnArr;
      NoneStarted(View());
      for i := 0 to |settings.categories|
        invariant SearchesKnown() && spawns == old(spawns) + i
        invariant View() == RespawnAll(old(View()), settings, env, old(spawns), i)
      {
        RespawnAllFacts(old(View()), settings, env, old(spawns), i);
        settings.ManagedNext(i);
        RespawnInstance(settings.categories[i]);
      }
    }

    /**
     A coordinated restart.  Afterwards every managed worker is running or
     pending, and only a worker that was pending before can be both: the
     workers stay exclusive exactly when none that was pending is started, and
     if everything works from now on, exactly when nothing was pending.
     */
    method CoordinatedRestart()
      requires View().Valid() && SearchesKnown() && View().PendingManaged(settings) && Distinct(settings.categories)
      modifies `os, `ticks, `children, `registry, `pending, `failedAttempts, `doubled, `searchProcess, `spawns,
               `databaseRestart
      ensures View().Valid() && SearchesKnown() && View().PendingManaged(settings) && !databaseRestart
      ensures View().SingleWorkers() && View().AllUp() && View().doubled == old(View().doubled)
      ensures forall k :: k in View().Running() ==> settings.IsManaged(k)
      ensures forall k :: k in View().pending <==>
                k in old(View().pending) || (settings.IsManaged(k) && k !in View().Running())
      ensures old(Distinct(View().pending)) ==> Distinct(View().pending)
      ensures env.WorksFrom(old(spawns), old(View().os.next)) ==>
                forall k :: settings.IsManaged(k) ==> k in View().Running()
      ensures View().os.next >= old(View().os.next) && spawns >= old(spawns) && ticks >= old(ticks)
      ensures old(!View().doubled && Distinct(View().pending)) ==>
                (View().Exclusive() <==> forall k <- old(View().pending) :: k !in View().Running())
      ensures old(!View().doubled && Distinct(View().pending)) && env.WorksFrom(old(spawns), old(View().os.next)) ==>
                (View().Exclusive() <==> old(View().pending) == [])
    {
      hide *;
      ClearAll();
      RestartFacts(View(), settings, env, spawns);
      RestartExclusive(View(), settings, env, spawns);
      RespawnInstances();
    }

    // -------------------------------------------------------------- crash restarts

    /** How many restarts of this worker, ever made, are less than a window old. */
    ghost function RecentRestarts(k: Key): nat
      reads `restarts, `clock
    {
      RecentCount(Times(restarts, k), clock, settings.window)
    }

    /** `_should_restart_process`: it looks at pruned timestamps and answers as if none had ever been dropped. */
    method ShouldRestartProcess(k: Key) returns (ok: bool)
      requires Limited()
      modifies `restartTimes, `restarts, `clock, `ticks
      ensures Limited()
      ensures restartTimes == old(restartTimes)[k := Pruned(Times(old(restartTimes), k), clock, settings.window)]
      ensures restarts == old(restarts)[k := Times(old(restarts), k)]
      ensures ok <==> |restartTimes[k]| < settings.maxRestarts
      ensures ok <==> RecentRestarts(k) < settings.maxRestarts
      ensures ticks >= old(ticks) && clock >= old(clock)
    {
      hide Keeps, WithinLimit, Pruned, RecentCount;
      var now := Time();
      if k !in restartTimes {
        EmptyHistory(clock, settings.window, settings.maxRestarts);
        restartTimes := restartTimes[k := []];
        restarts := restarts[k := []];
      }
      PruneKeeps(restartTimes[k], restarts[k], clock, now, settings.window);
      PruneCounts(restartTimes[k], restarts[k], clock, now, settings.window);
      restartTimes := restartTimes[k := Pruned(restartTimes[k], now, settings.window)];
      ok := |restartTimes[k]| < settings.maxRestarts;
    }

    /** The timestamp of a restart just made. */
    method RecordRestart(k: Key)
      requires Limited() && k in restartTimes && |restartTimes[k]| < settings.maxRestarts
      modifies `restartTimes, `restarts, `clock, `ticks
      ensures Limited()
      ensures restartTimes == old(restartTimes)[k := old(restartTimes[k]) + [clock]]
      ensures restarts == old(restarts)[k := old(restarts[k]) + [clock]]
      ensures ticks >= old(ticks) && clock >= old(clock)
    {
      var before := clock;
      var now := Time();
      RestartStaysWithin(restartTimes[k], restarts[k], clock, now, settings.window, settings.maxRestarts);
      restartTimes := restartTimes[k := restartTimes[k] + [now]];
      restarts := restarts[k := restarts[k] + [now]];
    }

    /** The first half of `_restart_process`: create and start, not yet tracked. */
    method Launch(k: Key) returns (started: bool)
      requires SearchesKnown()
      modifies `os, `searchProcess, `doubled
      ensures SearchesKnown()
      ensures started <==> !env.start(old(os.next)).StartRaises?
      ensures k.role in {Search, Torrent} ==> RoleOf(k.category, old(os).next) == k.role
      ensures os == if started then old(os).New(k).Set(old(os.next), env.After(old(os.next))) else old(os).New(k)
      ensures doubled <==> old(doubled) || (started && k in LiveKeys(old(os)))
    {
      var p := os.next;
      started := !env.start(p).StartRaises?;
      doubled := doubled || (started && k in LiveKeys(os));
      os := os.New(k);
      if k.role == Search {
        searchProcess := searchProcess[k.category := p];
      }
      if started {
        os := os.Set(p, env.After(p));
      }
    }

    /** `_restart_process`: the new process is started before it is tracked in the place of the failed one. */
    method RestartProcess(failed: Proc, meta: Option<Key>) returns (ok: bool)
      requires SearchesKnown() && Limited()
      requires meta.Some? ==> meta.value in restartTimes && |restartTimes[meta.value]| < settings.maxRestarts
      modifies `children, `registry, `os, `searchProcess, `doubled, `restartTimes, `restarts, `clock, `ticks
      ensures SearchesKnown() && Limited() && ticks >= old(ticks) && os.next >= old(os.next) &&
              clock >= old(clock) && (old(doubled) ==> doubled)
      ensures ok ==> meta.Some? && RoleOf(meta.value.category, old(os).next) == meta.value.role
      ensures ok ==>
                var p := old(os).next;
                p in os.status && os.status[p] != Unstarted &&
                (env.start(p).StartDies? ==> os.status[p] == Exited(env.start(p).code))
      ensures ok <==>
                meta.Some? && meta.value.category in settings.categories && meta.value.role in {Search, Torrent} &&
                !env.start(old(os.next)).StartRaises?
      ensures ok ==> View() == Replace(old(View()), env, failed, meta.value)
      ensures ok ==> restarts == old(restarts)[meta.value := old(restarts[meta.value]) + [clock]]
      ensures !ok ==> restarts == old(restarts) &&
                      (View() == old(View()) || (meta.Some? && View() == old(View()).(os := old(os).New(meta.value))))
    {
      hide LiveKeys, Without, Limited;
      if meta.None? || meta.value.category !in settings.categories || meta.value.role !in {Search, Torrent} {
        return false;
      }
      var k, p := meta.value, os.next;
      var started := Launch(k);
      if !started {
        return false;
      }
      RecordRestart(k);
      children := Without(children, failed) + [p];
      registry := (registry - {failed})[p := k];
      ok := true;
    }

    /**
     Whether an exited child is to be restarted: no coordinated restart is due,
     it crashed, and the limit permits it.
     */
    method MayRestart(k: Key, code: int) returns (allowed: bool)
      requires Limited()
      modifies `restartTimes, `restarts, `clock, `ticks, `databaseRestart, `asks
      ensures Limited()
      ensures allowed ==> k in restartTimes && |restartTimes[k]| < settings.maxRestarts
      ensures allowed <==> !databaseRestart && settings.autoRestart && code != 0 &&
                           RecentRestarts(k) < settings.maxRestarts
      ensures databaseRestart <==> old(databaseRestart) || env.signal(old(asks))
      ensures ticks >= old(ticks) && asks == old(asks) + 1 && clock >= old(clock)
      ensures forall j :: Times(restarts, j) == Times(old(restarts), j)
    {
      hide Limited, RecentCount;
      var requested := RestartRequested();
      if requested || !settings.autoRestart || code == 0 {
        return false;
      }
      allowed := ShouldRestartProcess(k);
    }

    /** A worker `_restart_process` is able to start. */
    predicate Restartable(k: Key, p: Proc) {
      k.category in settings.categories && k.role in {Search, Torrent} && !env.start(p).StartRaises?
    }

    /** Restart an exited child if that is wanted, permitted and works. */
    method TryRestart(p: Proc) returns (restarted: bool)
      requires View().Valid() && SearchesKnown() && Limited() && p in children && os.status[p].Exited?
      modifies `children, `registry, `os, `searchProcess, `doubled, `restartTimes, `restarts, `clock, `ticks,
               `databaseRestart, `asks
      ensures View().Valid() && SearchesKnown() && Limited() && Kept(old(View()), View(), p)
      ensures ticks >= old(ticks) && asks >= old(asks) && os.next >= old(os.next) && (old(doubled) ==> doubled)
      ensures clock >= old(clock) && (databaseRestart <==> old(databaseRestart) || env.signal(old(asks)))
      ensures restarted ==>
                p in old(registry) && View() == Replace(old(View()), env, p, old(registry)[p]) && p !in children
      ensures View().Running() == old(View().Running()) && (old(View().SingleWorkers()) ==> View().SingleWorkers())
      ensures p in os.status && p in os.target && os.status[p] == old(os).status[p] && os.target[p] == old(os).target[p]
      ensures restarted ==> !databaseRestart && settings.autoRestart && old(os).status[p].code != 0
      ensures restarted ==>
                RecentCount(Times(old(restarts), old(registry)[p]), clock, settings.window) < settings.maxRestarts
      ensures !restarted ==>
                !os.Live(p) && (View() == old(View()) || exists k :: View() == old(View()).(os := old(os).New(k)))
      ensures !restarted && p in old(registry) && Restartable(old(registry)[p], old(os.next)) ==>
                databaseRestart || !settings.autoRestart || old(os).status[p].code == 0 ||
                RecentRestarts(old(registry)[p]) >= settings.maxRestarts
      ensures forall k :: (restarted && k == old(registry)[p]) || Times(restarts, k) == Times(old(restarts), k)
    {
      hide Consistent, Tracked, Table.Running, Table.SingleWorkers, Table.Valid, LiveKeys, Without, Replace, Kept,
           Runs, Limited, RecentCount;
      ChildFacts(View(), p);
      var meta := Lookup(p);
      var k := if meta.Some? then meta.value else Key("unknown", Unknown);
      var allowed := MayRestart(k, os.status[p].code);
      if !allowed {
        return false;
      }
      ghost var t, permitted := View(), clock;
      restarted := RestartProcess(p, meta);
      if restarted {
        RecentShrinks(Times(old(restarts), k), permitted, clock, settings.window);
        ReplaceFacts(t, env, p, k);
        ReplacedStays(t, env, p, k);
      } else {
        NewUnlisted(t, k);
      }
    }

    /** An exited child is restarted or dropped. */
    method RestartOrDrop(p: Proc) returns (ghost restarted: bool)
      requires View().Valid() && SearchesKnown() && Limited() && p in children && os.status[p].Exited?
      modifies `children, `registry, `os, `searchProcess, `doubled, `restartTimes, `restarts, `clock, `ticks,
               `databaseRestart, `asks
      ensures View().Valid() && SearchesKnown() && Limited() && Kept(old(View()), View(), p) && p !in children
      ensures ticks >= old(ticks) && asks >= old(asks) && os.next >= old(os.next) && (old(doubled) ==> doubled)
      ensures clock >= old(clock) && (databaseRestart <==> old(databaseRestart) || env.signal(old(asks)))
      ensures restarted ==> p in old(registry) && View().Running() == old(View().Running())
      ensures forall k :: (restarted && k == old(registry)[p]) || Times(restarts, k) == Times(old(restarts), k)
      ensures p in os.status && os.status[p] == old(os).status[p]
      ensures !restarted && old(View().SingleWorkers()) ==>
                View().Running() == old(View().Running()) - {old(os).target[p]}
      ensures !restarted && p in old(registry) && Restartable(old(registry)[p], old(os.next)) ==>
                databaseRestart || !settings.autoRestart || os.status[p].code == 0 ||
                RecentRestarts(old(registry)[p]) >= settings.maxRestarts
    {
      hide Table.Valid, Kept, Shrunk, Runs, Replace, LiveKeys, Table.Running, Without, Limited, RecentCount;
      ChildFacts(View(), p);
      var replaced := TryRestart(p);
      restarted := replaced;
      ghost var t := View();
      if !replaced {
        ChildFacts(View(), p);
        DropFacts(View(), p);
        DiscardSpawn(p);
        KeptThen(old(View()), t, View(), p);
      }
    }

    /**
     One child of the supervising loop: alive, not started, or exited and then
     restarted or dropped.  A restartable worker is dropped only if it ended
     regularly, restarts are off or a coordinated one is due, or its limit is reached.
     */
    method HandleExit(p: Proc) returns (alive: bool, ghost restarted: bool)
      requires View().Valid() && SearchesKnown() && Limited() && p in children
      modifies `children, `registry, `os, `searchProcess, `doubled, `restartTimes, `restarts, `clock, `ticks,
               `databaseRestart, `asks
      ensures View().Valid() && SearchesKnown() && Limited() && Kept(old(View()), View(), p)
      ensures ticks >= old(ticks) && asks >= old(asks) && os.next >= old(os.next) && (old(doubled) ==> doubled)
      ensures env.QuietFrom(old(ticks)) && (old(os).Live(p) || old(os).status[p] == Unstarted) ==>
                View() == old(View()) && databaseRestart == old(databaseRestart) && asks == old(asks)
      ensures alive ==> View() == old(View()) && os.Live(p)
      ensures !alive && old(os).status[p] == Unstarted ==> View() == old(View())
      ensures !alive && old(os).status[p] != Unstarted ==> p !in children && p in os.status && os.status[p].Exited?
      ensures !alive && old(os).status[p] != Unstarted ==>
                os.status[p] == old(os).status[p] || env.probe(p, old(ticks)) == FoundDead(os.status[p].code)
      ensures clock >= old(clock) && (databaseRestart ==> old(databaseRestart) || env.signal(old(asks)))
      ensures restarted ==> !alive && p in old(registry) && old(os).status[p] != Unstarted &&
                            View().Running() == old(View().Running())
      ensures forall k :: (restarted && k == old(registry)[p]) || Times(restarts, k) == Times(old(restarts), k)
      ensures !alive && old(os).status[p] != Unstarted && !restarted && old(View().SingleWorkers()) ==>
                View().Running() == old(View().Running()) - {old(os).target[p]}
      ensures !alive && old(os).status[p] != Unstarted && !restarted && p in old(registry) &&
              Restartable(old(registry)[p], old(os.next)) ==>
                databaseRestart || !settings.autoRestart || os.status[p].code == 0 ||
                RecentRestarts(old(registry)[p]) >= settings.maxRestarts
    {
      hide Table.Valid, Kept, Shrunk, Runs, Replace, LiveKeys, Table.Running, Without, Limited, Environment.QuietFrom,
           RecentCount;
      ChildFacts(View(), p);
      restarted := false;
      alive := IsAlive(p);
      ghost var t := View();
      if alive || os.status[p] == Unstarted {
        return;
      }
      restarted := RestartOrDrop(p);
      KeptThen(old(View()), t, View(), p);
    }

    /**
     A crash of this child would be made up for: it is registered for a managed
     worker, has not ended regularly, and its worker's limit is not reached.
     */
    ghost predicate Guarded(p: Proc)
      reads `children, `os, `registry, `restarts, `clock
    {
      p in children && p in os.status && os.status[p] != Unstarted && os.status[p] != Exited(0) &&
      p in registry && registry[p].category in settings.categories && registry[p].role in {Search, Torrent} &&
      RecentRestarts(registry[p]) < settings.maxRestarts
    }

    ghost function GuardedKeys(): set<Key>
      reads `children, `os, `registry, `restarts, `clock
    {
      set p | p in children && Guarded(p) :: registry[p]
    }

    /** From now on every spawn and start works, workers only end by crashing, and no coordinated restart is due. */
    ghost predicate Healing()
      reads `databaseRestart, `asks, `spawns, `os, `ticks
    {
      settings.autoRestart && !databaseRestart && env.NoSignalFrom(asks) && env.WorksFrom(spawns, os.next) &&
      env.OnlyCrashesFrom(ticks)
    }

    /** Guarded keys run, and only a guarded child runs one. */
    lemma GuardedFacts()
      requires View().Valid() && View().SingleWorkers()
      ensures GuardedKeys() <= View().Running()
      ensures forall p <- children :: p in os.status && p in os.target
      ensures forall p <- children :: os.status[p] != Unstarted && os.target[p] in GuardedKeys() ==> Guarded(p)
    {
      forall p | p in children && os.status[p] != Unstarted && os.target[p] in GuardedKeys()
        ensures Guarded(p)
      {
        var q :| q in children && Guarded(q) && registry[q] == os.target[p];
        GuardedApart(p, q);
      }
    }

    lemma GuardedApart(p: Proc, q: Proc)
      requires View().Valid() && View().SingleWorkers() && Guarded(q)
      requires p in children && p in os.status && os.status[p] != Unstarted && p in os.target
      ensures registry[q] == os.target[p] ==> p == q
    {
      assert !Clash(children, os, p, q);
    }

    /** Handling one child keeps the others guarded, and a guarded one running. */
    method HandleGuarded(p: Proc) returns (alive: bool)
      requires View().Valid() && SearchesKnown() && Limited() && p in children
      modifies `children, `registry, `os, `searchProcess, `doubled, `restartTimes, `restarts, `clock, `ticks,
               `databaseRestart, `asks
      ensures View().Valid() && SearchesKnown() && Limited() && Kept(old(View()), View(), p)
      ensures ticks >= old(ticks) && asks >= old(asks) && os.next >= old(os.next) && (old(doubled) ==> doubled)
      ensures env.QuietFrom(old(ticks)) && (old(os).Live(p) || old(os).status[p] == Unstarted) ==>
                View() == old(View()) && databaseRestart == old(databaseRestart) && asks == old(asks)
      ensures alive ==> View() == old(View()) && os.Live(p)
      ensures !alive && old(os).status[p] == Unstarted ==> View() == old(View())
      ensures !alive && old(os).status[p] != Unstarted ==> p !in children
      ensures old(Healing()) ==> Healing()
      ensures old(View().SingleWorkers()) ==> forall q :: q != p && old(Guarded(q)) ==> Guarded(q)
      ensures old(View().SingleWorkers()) && old(Healing()) ==>
                View().Running() >=
                  old(View().Running()) -
                  if old(os).status[p] != Unstarted && !old(Guarded(p)) then {old(os).target[p]} else {}
    {
      hide Table.Valid, Table.Running, Table.SingleWorkers, Shrunk, LiveKeys, Limited, RecentCount;
      ChildFacts(View(), p);
      if View().SingleWorkers() && os.status[p] != Unstarted {
        forall q | Guarded(q)
          ensures registry[q] == os.target[p] ==> p == q
        {
          GuardedApart(p, q);
        }
      }
      ghost var restarted;
      alive, restarted := HandleExit(p);
      forall k
        ensures RecentCount(Times(old(restarts), k), clock, settings.window) <= old(RecentRestarts(k))
      {
        RecentShrinks(Times(old(restarts), k), old(clock), clock, settings.window);
      }
    }

    /** These are still to be handled; those that run one of the given keys are guarded. */
    ghost predicate Unseen(procs: seq<Proc>, before: Os, keys: set<Key>)
      reads `children, `os, `registry, `restarts, `clock
    {
      forall p <- procs ::
        p in children && p in os.status && p in before.status && os.status[p] == before.status[p] && p in os.target &&
        (os.status[p] != Unstarted && os.target[p] in keys ==> Guarded(p))
    }

    /** Those of these that are still listed were found alive or not started. */
    ghost predicate Seen(procs: seq<Proc>, before: Os)
      reads `children, `os
    {
      forall p <- procs :: p in os.status && p in before.status &&
                           (p in children ==> os.Live(p) || before.status[p] == Unstarted)
    }

    /** The keys run, and go on running if there are any: no restart is due, and starts work. */
    ghost predicate Protects(keys: set<Key>)
      reads `children, `os, `databaseRestart, `asks, `spawns, `ticks
    {
      keys != {} ==> Healing() && Single(children, os) && keys <= StartedKeys(children, os)
    }

    lemma NothingHandled(keys: set<Key>)
      requires View().Valid() && (keys != {} ==> Healing() && View().SingleWorkers() && keys <= GuardedKeys())
      ensures Unseen(children[0..], os, keys) && Seen(children[..0], os) && Protects(keys)
    {
      ChildrenKnown(View());
      if keys != {} {
        GuardedFacts();
      }
    }

    lemma UnseenSplit(procs: seq<Proc>, i: nat, before: Os, keys: set<Key>)
      requires i < |procs| && Distinct(procs) && Unseen(procs[i..], before, keys)
      ensures Unseen([procs[i]], before, keys) && Unseen(procs[i + 1..], before, keys)
      ensures procs[i] !in procs[i + 1..] && procs[..i + 1] == procs[..i] + [procs[i]]
    {
      assert procs[i..] == [procs[i]] + procs[i + 1..];
    }

    method HandleNext(p: Proc, ghost done: seq<Proc>, ghost before: Os, ghost keys: set<Key>) returns (alive: bool)
      requires View().Valid() && SearchesKnown() && Limited() && Unseen([p], before, keys)
      requires Seen(done, before) && Protects(keys)
      modifies `children, `registry, `os, `searchProcess, `doubled, `restartTimes, `restarts, `clock, `ticks,
               `databaseRestart, `asks
      ensures View().Valid() && SearchesKnown() && Limited() && Shrunk(old(View()), View())
      ensures Later(old(ticks), old(asks), old(os).next, old(doubled))
      ensures env.QuietFrom(old(ticks)) && (old(os).Live(p) || old(os).status[p] == Unstarted) ==>
                View() == old(View()) && databaseRestart == old(databaseRestart) && asks == old(asks)
      ensures forall procs :: old(Unseen(procs, before, keys)) && p !in procs ==> Unseen(procs, before, keys)
      ensures Seen(done + [p], before) && Protects(keys) && (old(Healing()) ==> Healing())
    {
      hide Table.Valid, Limited, SearchesKnown, Guarded, OthersRegistered, Healing, Single, StartedKeys,
           Environment.QuietFrom;
      assert p in [p];
      alive := HandleGuarded(p);
    }

    /**
     One pass of the supervising loop over its children.  If starts work and no
     restart is due, a crash costs no worker whose limit is not reached.
     */
    method HandleExits() returns (anyAlive: bool)
      requires View().Valid() && SearchesKnown() && Limited()
      modifies `children, `registry, `os, `searchProcess, `doubled, `restartTimes, `restarts, `clock, `ticks,
               `databaseRestart, `asks
      ensures SearchesKnown() && Limited() && Shrunk(old(View()), View())
      ensures Later(old(ticks), old(asks), old(os).next, old(doubled))
      ensures env.QuietFrom(old(ticks)) && old(View().AllUp() && View().SingleWorkers()) ==>
                View() == old(View()) && databaseRestart == old(databaseRestart) && asks == old(asks)
      ensures forall p :: p in old(children) && p in children ==>
                            os.Live(p) || (p in old(os).status && old(os).status[p] == Unstarted)
      ensures old(Healing()) ==> Healing() && (old(View().SingleWorkers()) ==> old(GuardedKeys()) <= View().Running())
    {
      hide Table.Valid, Shrunk, Table.AllUp, Table.SingleWorkers, StartedKeys, Single, Limited, SearchesKnown;
      hide Guarded, GuardedKeys, Healing, Unseen;
      DistinctChildren(View());
      ChildrenStay(View());
      ghost var quiet := env.QuietFrom(ticks) && View().AllUp() && View().SingleWorkers();
      ghost var keys := if Healing() && View().SingleWorkers() then GuardedKeys() else {};
      NothingHandled(keys);
      if quiet {
        UpAreLive(View());
      }
      var todo := children;
      anyAlive := false;
      for i := 0 to |todo|
        invariant View().Valid() && SearchesKnown() && Limited() && Shrunk(old(View()), View())
        invariant Later(old(ticks), old(asks), old(os).next, old(doubled))
        invariant quiet ==> View() == old(View()) && databaseRestart == old(databaseRestart) && asks == old(asks)
        invariant Unseen(todo[i..], old(os), keys) && Seen(todo[..i], old(os)) && Protects(keys)
        invariant old(Healing()) ==> Healing()
      {
        ghost var t := View();
        UnseenSplit(todo, i, old(os), keys);
        var alive := HandleNext(todo[i], todo[..i], old(os), keys);
        anyAlive := anyAlive || alive;
        ShrunkThen(old(View()), t, View());
      }
      assert todo[..|todo|] == todo;
    }

    /** Observation, question and process numbers only grow, and a doubled worker stays on record. */
    ghost predicate Later(ticks: nat, asks: nat, next: Proc, doubled: bool)
      reads `ticks, `asks, `os, `doubled
    {
      this.ticks >= ticks && this.asks >= asks && os.next >= next && (doubled ==> this.doubled)
    }

    // -------------------------------------------------------------- pending spawns

    /** One process created for a retry: start it if it has the wanted role, else discard it. */
    method RetryWorker(p: Proc, k: Key, ghost j: Key, attempts: nat) returns (failed: bool)
      requires View().Waits(p, j) && RoleOf(k.category, p) == j.role
      modifies `children, `registry, `os, `doubled, `failedAttempts
      ensures View() == RetryStep(old(View()), env, p, j, k, attempts) && os.next == old(os.next)
      ensures failed <==> j.role == k.role && !env.start(p).StartRuns?
    {
      failed := false;
      if RoleOf(k.category, p) == k.role {
        var up := StartOrDiscard(p);
        if up {
          registry := registry[p := k];
          failedAttempts := failedAttempts - {k};
        } else {
          failed := true;
          failedAttempts := failedAttempts[k := attempts + 1];
        }
      } else {
        DiscardSpawn(p);
      }
    }

    method RetrySpawned(k: Key, procs: seq<Proc>, attempts: nat, ghost first: Proc, ghost keys: seq<Key>)
      returns (failed: bool)
      requires View().Valid() && AllWait(View(), first, keys, 0) && forall j <- keys :: j.category == k.category
      requires |procs| == |keys| && forall i :: 0 <= i < |keys| ==> procs[i] == first + i
      requires forall i :: 0 <= i < |keys| ==> RoleOf(k.category, first + i) == keys[i].role
      modifies `children, `registry, `os, `doubled, `failedAttempts
      ensures View() == RetryProcs(old(View()), env, first, keys, |keys|, k, attempts) && os.next == old(os.next)
      ensures failed <==> exists i :: 0 <= i < |keys| && keys[i].role == k.role && !env.start(first + i).StartRuns?
    {
      hide Table.Valid, AllWait, Table.Waits, RetryStep;
      failed := false;
      for i := 0 to |procs|
        invariant View() == RetryProcs(old(View()), env, first, keys, i, k, attempts) && os.next == old(os.next)
        invariant failed <==> exists j :: 0 <= j < i && keys[j].role == k.role && !env.start(first + j).StartRuns?
      {
        RetryProcsWait(old(View()), env, first, keys, i, k, attempts);
        NextWaits(View(), first, keys, i);
        var f := RetryWorker(procs[i], k, keys[i], attempts);
        failed := failed || f;
      }
    }

    /** Retry one entry of the pending list. */
    method RetryOne(k: Key) returns (requeue: bool)
      requires View().Valid() && SearchesKnown() && settings.IsManaged(k)
      modifies `children, `registry, `os, `searchProcess, `spawns, `doubled, `failedAttempts
      ensures View() == Retry(old(View()), settings, env, k, env.spawn(old(spawns)))
      ensures requeue <==> !Recovered(old(View()), settings, env, k, env.spawn(old(spawns)))
      ensures SearchesKnown() && spawns == old(spawns) + 1
    {
      hide Table.Valid, Table.Waits, Table.Running, AllWait, Untouched, RetryProcs, Create, Settings.IsManaged, Place;
      var attempts := Attempts(failedAttempts, k);
      ghost var keys, first := settings.Created(k.category, env.spawn(spawns)), os.next;
      SpawnLeaves(View(), keys);
      var ok, procs := SpawnChildProcesses(k.category);
      if ok {
        PlaceFacts(settings, k);
        requeue := RetrySpawned(k, procs, attempts, first, keys);
      } else {
        failedAttempts := failedAttempts[k := attempts + 1];
        requeue := true;
      }
    }

    /** Retry what is pending; afterwards what did not come up is pending. */
    method RetryPendingSpawns()
      requires View().Valid() && SearchesKnown() && View().PendingManaged(settings)
      modifies `children, `registry, `os, `searchProcess, `spawns, `doubled, `failedAttempts, `pending
      ensures SearchesKnown()
      ensures View() == RetryPending(old(View()), settings, env, old(spawns)) && spawns >= old(spawns)
    {
      hide Table.Valid, Retry, Recovered;
      var retry := [];
      for i := 0 to |pending|
        invariant pending == old(pending) && SearchesKnown() && spawns == old(spawns) + i
        invariant View() == RetryAll(old(View()), settings, env, old(spawns), old(pending), i)
        invariant retry == Requeued(old(View()), settings, env, old(spawns), old(pending), i)
      {
        RetryAllFacts(old(View()), settings, env, old(spawns), old(pending), i);
        var requeue := RetryOne(pending[i]);
        if requeue {
          retry := retry + [pending[i]];
        }
      }
      pending := retry;
    }

    // ------------------------------------------------------------------- whole runs

    /** `_stop_qbit_category_worker`, given the registry's processes in order. */
    method StopQbitCategoryWorker(instance: string, registered: seq<Proc>)
      requires View().Valid() && forall p :: p in registered <==> p in registry
      modifies `os, `children, `registry
      ensures Shrunk(old(View()), View())
      ensures forall p :: p in registry <==> p in old(registry) && old(registry)[p] != CategoryKey(instance)
      ensures forall p <- old(registry) :: old(registry)[p] == CategoryKey(instance) ==> !os.Live(p) && p !in children
      ensures forall p :: p in old(children) && !(p in old(registry) && old(registry)[p] == CategoryKey(instance)) ==>
                p in children
    {
      hide Consistent, Tracked, Single, StartedKeys, LiveKeys, Shrunk;
      ChildrenStay(View());
      for i := 0 to |registered|
        invariant Shrunk(old(View()), View()) && View().Valid()
        invariant forall p :: p in registry <==>
                    p in old(registry) && !(p in registered[..i] && old(registry)[p] == CategoryKey(instance))
        invariant forall p <- registry :: registry[p] == old(registry)[p]
        invariant forall p <- registered[..i] :: old(registry)[p] == CategoryKey(instance) ==>
                    !os.Live(p) && p !in children
        invariant forall p ::
                    p in old(children) && !(p in registered[..i] && old(registry)[p] == CategoryKey(instance)) ==>
                      p in children
      {
        var p := registered[i];
        assert registered[..i + 1] == registered[..i] + [p];
        if p in registry && registry[p] == CategoryKey(instance) {
          ghost var t := View();
          KillAndForget(p);
          ShrunkThen(old(View()), t, View());
        }
      }
      assert registered[..|registered|] == registered;
    }

    /** Kill a process and stop tracking it. */
    method KillAndForget(p: Proc)
      requires View().Valid()
      modifies `os, `children, `registry
      ensures View().Valid() && Kept(old(View()), View(), p) && Shrunk(old(View()), View())
      ensures registry == old(registry) - {p} && p !in children && !os.Live(p)
      ensures forall q :: os.Live(q) ==> old(os).Live(q)
      ensures forall q :: q in children ==> q in old(children)
    {
      hide Consistent, Tracked, Single, StartedKeys, LiveKeys;
      ghost var t := View();
      ChildrenStay(t);
      if os.Live(p) {
        DiesFacts(t, p, -9);
        os := os.Set(p, Exited(-9));
      }
      ghost var t1 := View();
      DropFacts(t1, p);
      DiscardSpawn(p);
      KeptThen(t, t1, View(), p);
    }

    /** Whether any child is still alive; looking stops at the first. */
    method AnyAlive() returns (any: bool)
      requires View().Valid()
      modifies `os, `ticks
      ensures Shrunk(old(View()), View()) && os.next == old(os).next && View().Running() == old(View().Running())
      ensures any ==> children != []
    {
      hide Consistent, Tracked, Single, StartedKeys, LiveKeys, Shrunk;
      ChildrenStay(View());
      any := false;
      var i := 0;
      while i < |children| && !any
        invariant i <= |children| && (any ==> children != []) && View().Valid() && Shrunk(old(View()), View()) &&
                  os.next == old(os).next && View().Running() == old(View().Running())
        decreases |children| - i
      {
        ghost var t := View();
        ChildFacts(t, children[i]);
        any := IsAlive(children[i]);
        ShrunkThen(old(View()), t, View());
        i := i + 1;
      }
    }

    /**
     What the supervising loop keeps: workers are exclusive unless a
     coordinated restart began with pending spawns.
     */
    ghost predicate Supervised()
      reads this
    {
      View().Valid() && SearchesKnown() && Limited() && View().PendingManaged(settings) &&
      (!dirtyRestart ==> View().Exclusive())
    }

    /** From now on everything works, no worker dies by itself, and from this question on no restart is asked for. */
    ghost predicate Undisturbed(asks: nat)
      reads `spawns, `os, `ticks
    {
      env.WorksFrom(spawns, os.next) && env.QuietFrom(ticks) && env.NoSignalFrom(asks)
    }

    /** All started workers are up, and the first pending one is among them. */
    ghost predicate Overlaps()
      reads this
    {
      View().AllUp() && View().SingleWorkers() && pending != [] && pending[0] in View().Running()
    }

    lemma OverlapsNow(k: Key)
      requires View().AllUp() && View().SingleWorkers() && k in View().pending && View().PendingManaged(settings)
      requires forall j :: settings.IsManaged(j) ==> j in View().Running()
      ensures Overlaps()
    {
      hide Table.AllUp, Table.SingleWorkers, Table.Running;
      assert pending[0] in View().pending;
    }

    /** The round of a coordinated restart. */
    method RestartRound()
      requires Supervised() && Distinct(settings.categories)
      modifies this
      ensures Supervised() && !databaseRestart
      ensures dirtyRestart <==> old(dirtyRestart) || old(pending) != []
      ensures Later(old(ticks), old(asks), old(os).next, old(doubled)) && spawns >= old(spawns)
      ensures old(pending) != [] && env.WorksFrom(old(spawns), old(os).next) ==> Overlaps()
    {
      hide Table.Valid, Table.Running, Table.SingleWorkers, Table.Exclusive, Table.PendingManaged, LiveKeys, Limited;
      ghost var dirty := dirtyRestart || pending != [];
      ghost var works := env.WorksFrom(spawns, View().os.next);
      RestartClean(View());
      assert pending != [] ==> pending[0] in View().pending;
      CoordinatedRestart();
      if old(pending) != [] && works {
        OverlapsNow(old(pending)[0]);
      }
      dirtyRestart := dirty;
    }

    lemma OverlapIsLive()
      requires Overlaps()
      ensures View().pending != [] && View().pending[0] in LiveKeys(View().os)
    {
      hide Table.SingleWorkers, Table.Running, LiveKeys;
    }

    /** Retry what is pending, unless restarts are off or a coordinated one is due. */
    method RetryRound()
      requires Supervised()
      modifies `children, `registry, `os, `searchProcess, `doubled, `databaseRestart, `asks, `spawns, `failedAttempts,
               `pending
      ensures Supervised()
      ensures !dirtyRestart ==> View().Running() + View().PendingKeys() == old(View().Running() + View().PendingKeys())
      ensures old(doubled) ==> doubled
      ensures old(Overlaps()) && !old(databaseRestart) && settings.autoRestart && old(Undisturbed(asks)) ==> doubled
      ensures !settings.autoRestart || databaseRestart ==> View() == old(View()) && spawns == old(spawns)
      ensures old(Healing()) ==>
                Healing() && pending == [] && View().Running() == old(View().Running() + View().PendingKeys())
    {
      hide Table.Valid, Table.Running, Table.Exclusive, Table.PendingManaged, LiveKeys, Limited, Overlaps, RetryPending;
      if pending != [] && settings.autoRestart {
        if Overlaps() {
          OverlapIsLive();
        }
        var requested := RestartRequested();
        if !requested {
          RetryPendingFacts(View(), settings, env, spawns);
          if env.WorksFrom(spawns, os.next) {
            RetryPendingWorks(View(), settings, env, spawns);
          }
          RetryPendingSpawns();
        }
      } else if Overlaps() {
        OverlapIsLive();
      }
    }

    /**
     Handle the children and retry what is pending; no pending worker is
     forgotten.  If starts work and no restart is due, every guarded and every
     pending worker is running afterwards.
     */
    method WorkRound() returns (anyAlive: bool)
      requires Supervised()
      modifies `children, `registry, `os, `searchProcess, `doubled, `restartTimes, `restarts, `clock, `ticks,
               `databaseRestart, `asks,
               `spawns, `failedAttempts, `pending
      ensures Supervised()
      ensures !dirtyRestart ==> old(View().PendingKeys()) <= View().Running() + View().PendingKeys()
      ensures !settings.autoRestart ==> pending == old(pending) && spawns == old(spawns)
      ensures old(doubled) ==> doubled
      ensures old(Overlaps()) && !old(databaseRestart) && settings.autoRestart && old(Undisturbed(asks)) ==> doubled
      ensures old(Healing()) && old(View().SingleWorkers()) ==>
                Healing() && pending == [] && old(View().PendingKeys()) <= View().Running() &&
                old(GuardedKeys()) <= View().Running()
    {
      hide Table.Valid, Table.Running, Table.SingleWorkers, Table.Exclusive, Table.PendingManaged, LiveKeys, Shrunk,
           Limited;
      ghost var t := View();
      anyAlive := HandleExits();
      ShrunkExclusive(t, View(), settings);
      RetryRound();
    }

    /**
     One round of the supervising loop; unless it was a coordinated restart, it
     ends the run exactly when no child is left.
     */
    method Round() returns (stop: bool, ghost restarted: bool)
      requires Supervised() && Distinct(settings.categories)
      modifies this
      ensures Supervised()
      ensures dirtyRestart <==> old(dirtyRestart) || (restarted && old(pending) != [])
      ensures restarted <==> old(databaseRestart) || env.signal(old(asks))
      ensures if restarted then !stop && !databaseRestart else stop <==> children == []
      ensures old(doubled) ==> doubled
      ensures restarted ==> Later(old(ticks), old(asks) + 1, old(os).next, old(doubled)) && spawns >= old(spawns)
      ensures restarted && old(pending) != [] && env.WorksFrom(old(spawns), old(os).next) ==> Overlaps()
      ensures !restarted && old(Overlaps()) && settings.autoRestart && old(Undisturbed(asks)) ==> doubled
      ensures old(Healing()) && old(View().SingleWorkers()) ==>
                !restarted && pending == [] && old(View().PendingKeys()) <= View().Running() &&
                old(GuardedKeys()) <= View().Running()
    {
      hide Table.Valid, Table.Exclusive, Table.PendingManaged, Shrunk, Limited, Guarded;
      var requested := RestartRequested();
      if requested {
        RestartRound();
        return false, true;
      }
      var anyAlive := WorkRound();
      restarted := false;
      if children == [] && !anyAlive {
        return true, false;
      }
      ghost var t := View();
      var alive := AnyAlive();
      ShrunkExclusive(t, View(), settings);
      stop := !alive && children == [];
    }

    /**
     A whole run: startup and any number of rounds.  As long as no coordinated
     restart began with pending spawns, there is at most one live worker per
     key, a pending key has none, and no worker was ever started beside a live
     one.  The restart limit holds in any case.
     */
    method Run(instances: seq<string>, rounds: nat)
      requires View() == Table([], map[], [], map[], Os(map[], map[], 0), false) && SearchesKnown() && Limited() &&
               !dirtyRestart
      requires Distinct(settings.categories) && Distinct(instances)
      modifies this
      ensures Supervised()
      ensures !dirtyRestart ==>
                !doubled && (forall k <- pending :: k !in LiveKeys(os)) &&
                forall p, q :: os.Live(p) && os.Live(q) && os.target[p] == os.target[q] ==> p == q
      ensures forall k <- restarts :: WithinLimit(restarts[k], settings.window, settings.maxRestarts)
    {
      hide Table.Valid, Table.Running, LiveKeys, Unique, Targets;
      Startup(instances);
      var stop := false;
      for i := 0 to rounds
        invariant Supervised()
      {
        if !stop {
          ghost var restarted;
          stop, restarted := Round();
        }
      }
      if !dirtyRestart {
        ExclusiveFacts(View());
      }
    }

    /**
     Startup: prepare and start everything.  A managed worker is running or
     queued if its category's spawn works.  If that spawn raises, the error is
     only logged: its workers are neither, except that a search worker created
     before the error is started like the others, unregistered.
     */
    method Startup(instances: seq<string>)
      requires View() == Table([], map[], [], map[], Os(map[], map[], 0), false) && SearchesKnown() && Limited() &&
               !dirtyRestart
      requires Distinct(settings.categories) && Distinct(instances)
      modifies `children, `registry, `os, `searchProcess, `spawns, `doubled, `ticks, `pending, `failedAttempts
      ensures Supervised() && View().Exclusive()
      ensures forall i: nat, role :: i < |settings.categories| && role in settings.Roles(settings.categories[i]) ==>
                settings.Accounted(i, role, env, old(spawns), View().Running(), pending)
      ensures env.WorksFrom(0, 0) ==> pending == []
      ensures env.WorksFrom(old(spawns), 0) ==>
                forall k: Key :: k in View().Running() && k.role != CategoryManager <==>
                                   k.category in settings.categories &&
                                   ((k.role == Search && k.category in settings.searchMissing) ||
                                    (k.role == Torrent && settings.torrentLoops))
      ensures AllSpawn() && !env.start(0).StartRuns? && (exists k :: settings.IsManaged(k)) ==>
                pending != [] && os.next > 0
    {
      hide Table.Valid, Table.Running, Table.Exclusive, Table.PendingManaged, Targets, Unique, Limited;
      hide Settings.IsManaged, Settings.Covers, Settings.Registers, Settings.Accounted, Settings.Roles,
           Settings.FromRegistry;
      EmptyFacts(View());
      PrepareAll();
      ghost var t := View();
      settings.CoversManaged(Targets(children, os.target), |settings.categories|, env, old(spawns));
      settings.AllPrepared(t.children, t.registry, t.os.target, env, old(spawns));
      if AllSpawn() && exists k :: settings.IsManaged(k) {
        ghost var k :| settings.IsManaged(k);
        SomeChild(old(spawns), k);
      }
      StartPrepared(instances);
      AccountAll(t, old(spawns));
      if env.WorksFrom(old(spawns), 0) {
        AllRunning(Targets(t.children, t.os.target), old(spawns));
      }
    }

    /** If every spawn and start works, exactly the managed workers are running, besides the category workers. */
    lemma AllRunning(targets: set<Key>, first: nat)
      requires env.WorksFrom(first, 0) && pending == [] && forall k <- targets :: settings.IsManaged(k)
      requires forall i: nat, role :: i < |settings.categories| && role in settings.Roles(settings.categories[i]) ==>
                 settings.Accounted(i, role, env, first, View().Running(), pending)
      requires forall k <- View().Running() :: k in targets || k.role == CategoryManager
      ensures forall k: Key :: k in View().Running() && k.role != CategoryManager <==>
                                 k.category in settings.categories &&
                                 ((k.role == Search && k.category in settings.searchMissing) ||
                                  (k.role == Torrent && settings.torrentLoops))
    {
      hide Table.Running;
      forall k: Key
        ensures k in View().Running() && k.role != CategoryManager <==> settings.IsManaged(k)
      {
        settings.ManagedMeans(k);
        if settings.IsManaged(k) {
          var i: nat :| i < |settings.categories| && settings.categories[i] == k.category;
          assert settings.Accounted(i, k.role, env, first, View().Running(), pending);
        }
      }
      forall k: Key {
        settings.ManagedMeans(k);
      }
    }

    /** The category workers and the start loop, from prepared children. */
    method StartPrepared(instances: seq<string>)
      requires View().Valid() && SearchesKnown() && Unique(children, os.target) && Distinct(instances) &&
               pending == [] && !doubled
      requires forall k <- Targets(children, os.target) :: settings.IsManaged(k)
      requires (forall p <- children :: Untried(p) && p in os.target) && forall p <- registry :: p in children
      modifies `children, `registry, `os, `doubled, `ticks, `pending, `failedAttempts
      ensures View().Valid() && SearchesKnown() && View().Exclusive() && View().PendingManaged(settings)
      ensures os.next >= old(os).next
      ensures forall p <- old(children) ::
                if env.start(p).StartRuns? then old(os).target[p] in View().Running()
                else p in old(registry) ==> old(os).target[p] in pending
      ensures forall k <- pending ::
                k.role == CategoryManager || settings.FromRegistry(k, old(registry), old(os).target)
      ensures forall k <- View().Running() :: k in old(Targets(children, os.target)) || k.role == CategoryManager
      ensures (forall p :: env.start(p).StartRuns?) ==> pending == []
    {
      hide Table.Valid, Table.Running, Table.Exclusive, Table.PendingManaged, Targets, Unique, Settings.IsManaged,
           Settings.FromRegistry;
      ghost var t := View();
      SpawnQbitCategoryWorkers(instances);
      assert forall p <- t.children :: Stays(p, t.os, t.registry);
      RegisteredBefore(t);
      StartAll();
    }

    /** What is registered besides the category workers was registered for the managed instances. */
    lemma RegisteredBefore(t: Table)
      requires View().Valid() && t.Valid() && forall p <- t.registry :: Stays(p, t.os, t.registry)
      requires forall p <- registry :: p in t.registry || registry[p].role == CategoryManager
      ensures forall k <- registry.Values ::
                k.role == CategoryManager || settings.FromRegistry(k, t.registry, t.os.target)
    {
    }

    lemma NotAManager(k: Key)
      requires k in View().pending && View().PendingManaged(settings)
      ensures k.role != CategoryManager
    {
    }

    lemma AccountAll(t: Table, first: nat)
      requires View().PendingManaged(settings)
      requires settings.Covers(Targets(t.children, t.os.target), |settings.categories|, env, first)
      requires settings.Registers(t.children, t.registry, t.os.target, |settings.categories|, env, first)
      requires forall p <- t.children :: p in t.os.target &&
                 if env.start(p).StartRuns? then t.os.target[p] in View().Running()
                 else p in t.registry ==> t.os.target[p] in pending
      requires forall k <- pending :: k.role == CategoryManager || settings.FromRegistry(k, t.registry, t.os.target)
      requires forall k <- View().Running() :: k in Targets(t.children, t.os.target) || k.role == CategoryManager
      ensures forall i: nat, role :: i < |settings.categories| && role in settings.Roles(settings.categories[i]) ==>
                settings.Accounted(i, role, env, first, View().Running(), pending)
    {
      hide Targets, Table.Running, Settings.Covers, Settings.Registers, Settings.Roles;
      forall k | k in pending
        ensures settings.FromRegistry(k, t.registry, t.os.target)
      {
        NotAManager(k);
      }
      forall i: nat, role | i < |settings.categories| && role in settings.Roles(settings.categories[i])
        ensures settings.Accounted(i, role, env, first, View().Running(), pending)
      {
        settings.Account(i, role, env, first, t.children, t.registry, t.os.target, View().Running(), pending);
      }
    }

    /**
     A coordinated restart and the round after it.  When everything works from
     then on and nothing else happens, a worker is started beside a live one
     exactly if a spawn was pending when the restart began.
     */
    method RestartThenRetry()
      requires Supervised() && !dirtyRestart && Distinct(settings.categories) && settings.autoRestart
      requires databaseRestart || env.signal(asks)
      requires Undisturbed(asks + 1)
      modifies this
      ensures Supervised()
      ensures doubled <==> old(pending) != []
    {
      hide Table.Valid, Table.Running, Table.SingleWorkers, Table.PendingManaged, LiveKeys, Limited;
      var stop, restarted := Round();
      stop, restarted := Round();
    }

    /**
     From the very first start to a doubled worker: the first process fails to
     start and is queued, a coordinated restart starts it, and the retry starts
     it again.
     */
    method FailedStartDoubles(instances: seq<string>)
      requires View() == Table([], map[], [], map[], Os(map[], map[], 0), false) && SearchesKnown() && Limited() &&
               !dirtyRestart
      requires asks == 0
      requires Distinct(settings.categories) && Distinct(instances) && settings.autoRestart &&
               exists k :: settings.IsManaged(k)
      requires AllSpawn() && !env.start(0).StartRuns? && env.WorksFrom(0, 1)
      requires env.QuietFrom(0) && env.signal(0) && env.NoSignalFrom(1)
      modifies this
      ensures doubled
    {
      hide Table.Valid, Table.Running, Table.SingleWorkers, Table.PendingManaged, LiveKeys, Limited;
      Startup(instances);
      RestartThenRetry();
    }
  }

  /** One such run, for a configuration with a single worker. */
  method DoubledWorker() returns (manager: QbitManager)
    ensures fresh(manager) && manager.doubled
  {
    var settings := Settings(["radarr"], {}, true, true, 5, 300.0);
    var env := Environment(n => SpawnOk, p => if p == 0 then StartRaises else StartRuns, (p, n) => StillRunning,
                           n => n == 0, n => 0.0);
    manager := new QbitManager(settings, env);
    assert settings.IsManaged(Key("radarr", Torrent)) by {
      assert settings.categories[0] == "radarr" && settings.Roles("radarr") == [Torrent];
    }
    manager.FailedStartDoubles([]);
  }
}
