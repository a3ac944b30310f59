/**
 What the supervisor's worker-starting steps do to its tracking lists, as
 functions, with the facts the supervising loop relies on.
 */
module WorkerTable {
  import opened Sequences
  import opened ProcessTable

  datatype SpawnOutcome = SpawnOk | SpawnRaises | SpawnRaisesMidway
  datatype StartOutcome = StartRaises | StartDies(code: int) | StartRuns
  datatype Probe = StillRunning | FoundDead(code: int)

  type Elapsed = r: real | r >= 0.0

  /** Everything the supervisor does not decide. */
  datatype Environment = Environment(
    spawn: nat -> SpawnOutcome,            // by number of the spawn call
    start: Proc -> StartOutcome,           // each process is started at most once
    probe: (Proc, nat) -> Probe,           // whether a live process turns out dead at this observation
    signal: nat -> bool,                   // whether the restart event has been set since it was last asked for
    elapses: nat -> Elapsed)               // time that passes before this clock reading
  {
    /** From this spawn call and this process on, every spawn and every start works. */
    ghost predicate WorksFrom(spawns: nat, next: Proc) {
      (forall n: nat :: n >= spawns ==> spawn(n).SpawnOk?) && (forall p: Proc :: p >= next ==> start(p).StartRuns?)
    }

    /** From this observation on, no worker is found to have died by itself. */
    ghost predicate QuietFrom(ticks: nat) {
      forall p: Proc, n: nat :: n >= ticks ==> probe(p, n).StillRunning?
    }

    /** From this observation on, workers that die by themselves crash. */
    ghost predicate OnlyCrashesFrom(ticks: nat) {
      forall p: Proc, n: nat :: n >= ticks ==> probe(p, n) != FoundDead(0)
    }

    /** From this question on, no coordinated restart is asked for. */
    ghost predicate NoSignalFrom(asks: nat) {
      forall n: nat :: n >= asks ==> !signal(n)
    }

    /** What a process is a moment after `start()`. */
    function After(p: Proc): Status {
      match start(p)
      case StartRaises => Unstarted
      case StartDies(c) => Exited(c)
      case StartRuns => Alive
    }
  }

  datatype Settings = Settings(
    categories: seq<string>,               // categories of the managed objects, in order
    searchMissing: set<string>,            // those with a search loop
    torrentLoops: bool,                    // neither qBit-disabled nor search-only
    autoRestart: bool,
    maxRestarts: int,
    window: real)
  {
    /** `_expected_spawn_roles` */
    function Roles(category: string): seq<Role> {
      (if category in searchMissing then [Search] else []) + (if torrentLoops then [Torrent] else [])
    }

    /** The workers that `spawn_child_processes` gets to create. */
    function Created(category: string, outcome: SpawnOutcome): seq<Key> {
      if outcome.SpawnRaises? then []
      else (if category in searchMissing then [Key(category, Search)] else []) +
           (if outcome.SpawnOk? && torrentLoops then [Key(category, Torrent)] else [])
    }

    predicate IsManaged(k: Key) {
      k.category in categories && k.role in Roles(k.category)
    }

    /** Search workers for the categories with a search loop, torrent workers for all if torrents are handled at all. */
    lemma ManagedMeans(k: Key)
      ensures IsManaged(k) <==>
              k.category in categories &&
              ((k.role == Search && k.category in searchMissing) || (k.role == Torrent && torrentLoops))
    {
    }

    ghost function KeysOf(category: string): set<Key> {
      set r | r in Roles(category) :: Key(category, r)
    }

    /** The workers of the first `n` categories. */
    ghost function ManagedKeys(n: nat): set<Key>
      requires n <= |categories|
    {
      set c, r | c in categories[..n] && r in Roles(c) :: Key(c, r)
    }

    lemma CreatedKeys(category: string)
      ensures var keys := Created(category, SpawnOk);
              Distinct(keys) && Tried(keys, |keys|) == KeysOf(category) && forall k <- keys :: k in KeysOf(category)
    {
      var keys := Created(category, SpawnOk);
      assert forall i :: 0 <= i < |keys| ==> keys[i] == Key(category, Roles(category)[i]);
      assert |keys| == |Roles(category)|;
    }

    lemma CreatedCases(category: string, outcome: SpawnOutcome)
      ensures Created(category, outcome) ==
                match outcome
                case SpawnRaises => []
                case SpawnRaisesMidway => if category in searchMissing then [Key(category, Search)] else []
                case SpawnOk =>
                  if category !in searchMissing then if torrentLoops then [Key(category, Torrent)] else []
                  else if torrentLoops then [Key(category, Search), Key(category, Torrent)]
                  else [Key(category, Search)]
    {
    }

    lemma ManagedNext(n: nat)
      requires n < |categories| && Distinct(categories)
      ensures ManagedKeys(n + 1) == ManagedKeys(n) + KeysOf(categories[n]) && ManagedKeys(n) !! KeysOf(categories[n])
    {
      assert categories[..n + 1] == categories[..n] + [categories[n]];
    }

    lemma ManagedAll()
      ensures forall k :: k in ManagedKeys(|categories|) <==> IsManaged(k)
    {
      assert categories[..|categories|] == categories;
      forall k | IsManaged(k)
        ensures k in ManagedKeys(|categories|)
      {
        assert k == Key(k.category, k.role);
      }
    }

    /** The targets are the workers that the spawns from number `first` on created for the first `n` categories. */
    ghost predicate Covers(targets: set<Key>, n: nat, env: Environment, first: nat)
      requires n <= |categories|
    {
      (forall k <- targets :: k.category in categories[..n]) &&
      forall i: nat, k: Key :: i < n && k.category == categories[i] ==>
                            (k in targets <==> k in Created(categories[i], env.spawn(first + i)))
    }

    /** The registered processes are the children whose category's spawn did not raise. */
    ghost predicate Registers(children: seq<Proc>, registry: map<Proc, Key>, target: map<Proc, Key>, n: nat,
                              env: Environment, first: nat)
      requires n <= |categories|
    {
      (forall p <- registry :: p in children) &&
      (forall p <- children :: p in target && target[p].category in categories[..n]) &&
      forall i: nat, p :: i < n && p in children && target[p].category == categories[i] ==>
                            (p in registry <==> env.spawn(first + i).SpawnOk?)
    }

    lemma NothingPrepared(target: map<Proc, Key>, env: Environment, first: nat)
      ensures Covers(Targets([], target), 0, env, first) && Registers([], map[], target, 0, env, first) &&
              Unique([], target)
    {
    }

    lemma AllPrepared(children: seq<Proc>, registry: map<Proc, Key>, target: map<Proc, Key>, env: Environment,
                      first: nat)
      requires Registers(children, registry, target, |categories|, env, first)
      ensures (forall p <- registry :: p in children) && forall p <- children :: p in target
      ensures (forall n :: env.spawn(n).SpawnOk?) ==> forall p <- children :: p in registry
    {
      forall p | p in children
        ensures (forall n :: env.spawn(n).SpawnOk?) ==> p in registry
      {
        var i :| 0 <= i < |categories| && categories[i] == target[p].category;
      }
    }

    lemma CreatedAreManaged(category: string, outcome: SpawnOutcome)
      ensures forall k <- Created(category, outcome) ::
                k.category == category && (category in categories ==> IsManaged(k))
      ensures outcome.SpawnOk? ==>
                forall k: Key :: IsManaged(k) && k.category == category ==> k in Created(category, outcome)
      ensures Distinct(Created(category, outcome))
    {
      CreatedCases(category, outcome);
    }

    lemma CreatedRoles(category: string, outcome: SpawnOutcome, role: Role)
      requires role in Roles(category)
      ensures role in {Search, Torrent}
      ensures Key(category, role) in Created(category, outcome) <==>
              outcome.SpawnOk? || (outcome.SpawnRaisesMidway? && role == Search)
    {
      CreatedCases(category, outcome);
    }

    lemma CoversManaged(targets: set<Key>, n: nat, env: Environment, first: nat)
      requires n <= |categories| && Covers(targets, n, env, first)
      ensures forall k <- targets :: IsManaged(k)
    {
      forall k | k in targets
        ensures IsManaged(k)
      {
        var i :| 0 <= i < n && categories[i] == k.category;
        CreatedAreManaged(categories[i], env.spawn(first + i));
      }
    }

    lemma CoversNext(targets: set<Key>, n: nat, env: Environment, first: nat)
      requires n < |categories| && Distinct(categories) && Covers(targets, n, env, first)
      ensures var keys := Created(categories[n], env.spawn(first + n));
              Distinct(keys) && (forall k <- keys :: k !in targets) &&
              Covers(targets + (set k | k in keys), n + 1, env, first)
    {
      hide Created;
      assert categories[..n + 1] == categories[..n] + [categories[n]];
      CreatedAreManaged(categories[n], env.spawn(first + n));
    }

    lemma RegistersNext(children: seq<Proc>, registry: map<Proc, Key>, registry': map<Proc, Key>, os: Os, n: nat,
                        env: Environment, first: nat)
      requires n < |categories| && Distinct(categories) && os.Valid() && forall p <- children :: p in os.status
      requires Registers(children, registry, os.target, n, env, first)
      requires var outcome := env.spawn(first + n);
               forall p :: p in registry' <==>
                           p in registry || (outcome.SpawnOk? && p in Ids(os.next, |Created(categories[n], outcome)|))
      ensures var keys := Created(categories[n], env.spawn(first + n));
              Registers(children + Ids(os.next, |keys|), registry', Create(os, keys).target, n + 1, env, first)
    {
      hide Created, Create;
      var keys := Created(categories[n], env.spawn(first + n));
      assert categories[..n + 1] == categories[..n] + [categories[n]];
      CreatedAreManaged(categories[n], env.spawn(first + n));
      forall p | p in children + Ids(os.next, |keys|)
        ensures p in Create(os, keys).target
        ensures if p in children then p < os.next && Create(os, keys).target[p] == os.target[p]
                else p >= os.next && Create(os, keys).target[p].category == categories[n]
      {
        CreateAdds(os, keys, p);
      }
    }

    ghost predicate FromRegistry(k: Key, registry: map<Proc, Key>, target: map<Proc, Key>) {
      exists p <- registry :: p in target && target[p] == k
    }

    /** What has become of a managed worker once startup is over. */
    ghost predicate Accounted(i: nat, role: Role, env: Environment, first: nat, running: set<Key>, pending: seq<Key>)
      requires i < |categories|
    {
      var k := Key(categories[i], role);
      match env.spawn(first + i)
      case SpawnOk => k in running || k in pending
      case SpawnRaisesMidway =>
        k !in pending && (role == Torrent ==> k !in running) &&
        (role == Search && (forall p :: env.start(p).StartRuns?) ==> k in running)
      case SpawnRaises => k !in running && k !in pending
    }

    lemma Account(i: nat, role: Role, env: Environment, first: nat, children: seq<Proc>, registry: map<Proc, Key>,
                  target: map<Proc, Key>, running: set<Key>, pending: seq<Key>)
      requires i < |categories| && role in Roles(categories[i])
      requires Covers(Targets(children, target), |categories|, env, first)
      requires Registers(children, registry, target, |categories|, env, first)
      requires forall p <- children :: if env.start(p).StartRuns? then target[p] in running
                                       else p in registry ==> target[p] in pending
      requires forall k <- pending :: FromRegistry(k, registry, target)
      requires forall k <- running :: k in Targets(children, target) || k.role == CategoryManager
      ensures Accounted(i, role, env, first, running, pending)
    {
      var k, outcome := Key(categories[i], role), env.spawn(first + i);
      hide Created, Roles;
      CreatedRoles(categories[i], outcome, role);
      assert k in Targets(children, target) <==> k in Created(categories[i], outcome);
      if k in Targets(children, target) {
        var p :| p in children && p in target && target[p] == k;
        assert p in registry <==> outcome.SpawnOk?;
      }
      if k in pending {
        var p :| p in registry && p in target && target[p] == k;
        assert p in children && outcome.SpawnOk?;
      }
    }
  }

  /** The tracking lists and the processes they describe. */
  datatype Table = Table(children: seq<Proc>, registry: map<Proc, Key>, pending: seq<Key>,
                         failedAttempts: map<Key, nat>, os: Os, doubled: bool)
  {
    /** Every live worker process is tracked, and the lists are consistent. */
    ghost predicate Valid() {
      Consistent(children, registry, os) && Tracked(children, os)
    }

    ghost function Running(): set<Key> {
      StartedKeys(children, os)
    }

    ghost predicate SingleWorkers() {
      Single(children, os)
    }

    ghost function PendingKeys(): set<Key> {
      KeySet(pending)
    }

    ghost predicate PendingManaged(settings: Settings) {
      forall k <- pending :: settings.IsManaged(k)
    }

    /** Every started child is still alive. */
    ghost predicate AllUp() {
      Running() <= LiveKeys(os)
    }

    /** At most one worker per key, a pending key has none, and none was ever started beside a live one. */
    ghost predicate Exclusive() {
      SingleWorkers() && Distinct(pending) && PendingKeys() !! Running() && !doubled
    }

    /** `p` is a child that runs `k` once it is started. */
    ghost predicate Waits(p: Proc, k: Key) {
      p in children && p in os.status && p in os.target && os.status[p] == Unstarted && os.target[p] == k
    }
  }

  function Attempts(m: map<Key, nat>, k: Key): nat {
    if k in m then m[k] else 0
  }

  /** `_enqueue_failed_spawn` */
  function Enqueue(t: Table, k: Key): Table {
    t.(failedAttempts := t.failedAttempts[k := Attempts(t.failedAttempts, k) + 1],
       pending := if k in t.pending then t.pending else t.pending + [k])
  }

  lemma EnqueueKeeps(t: Table, k: Key)
    ensures Enqueue(t, k).Valid() == t.Valid() && Enqueue(t, k).Running() == t.Running()
    ensures Enqueue(t, k).AllUp() == t.AllUp() && Enqueue(t, k).SingleWorkers() == t.SingleWorkers()
    ensures Enqueue(t, k).doubled == t.doubled
    ensures Enqueue(t, k).PendingKeys() == t.PendingKeys() + {k}
    ensures Distinct(t.pending) ==> Distinct(Enqueue(t, k).pending)
  {
  }

  /** `_discard_unstarted_spawn` */
  function Discard(t: Table, p: Proc): Table {
    t.(children := Without(t.children, p), registry := t.registry - {p})
  }

  /**
   What the start sites do with an unstarted child: start it, and stop tracking
   it if it is not alive a moment later.
   */
  ghost function Start(t: Table, env: Environment, p: Proc): Table {
    var t' := t.(os := t.os.Set(p, env.After(p)),
                 doubled := t.doubled ||
                            (!env.start(p).StartRaises? && p in t.os.target && t.os.target[p] in LiveKeys(t.os)));
    if env.start(p).StartRuns? then t' else Discard(t', p)
  }

  lemma StartFacts(t: Table, env: Environment, p: Proc, k: Key)
    requires t.Valid() && t.Waits(p, k)
    ensures Start(t, env, p).Valid()
    ensures Start(t, env, p).Running() == t.Running() + if env.start(p).StartRuns? then {k} else {}
    ensures LiveKeys(Start(t, env, p).os) == LiveKeys(t.os) + if env.start(p).StartRuns? then {k} else {}
    ensures t.SingleWorkers() && (env.start(p).StartRuns? ==> k !in t.Running()) ==> Start(t, env, p).SingleWorkers()
    ensures k !in t.Running() ==> Start(t, env, p).doubled == t.doubled
  {
    StartLive(t.os, p, env.After(p));
    LiveAreStarted(t.children, t.registry, t.os);
    if env.start(p).StartRuns? {
      StartKeeps(t.children, t.registry, t.os, p, Alive);
    } else {
      StartDropKeeps(t.children, t.registry, t.os, p, env.After(p));
    }
  }

  lemma StartLeaves(t: Table, env: Environment, p: Proc, q: Proc, k: Key)
    requires t.Valid() && p in t.os.status && p != q && t.Waits(q, k)
    ensures Start(t, env, p).Waits(q, k)
  {
    WithoutMembers(t.children, p);
  }

  /** Starting one of several uniquely targeted children. */
  lemma StartUnique(t: Table, env: Environment, p: Proc)
    requires t.Valid() && Unique(t.children, t.os.target) && p in t.children && t.os.status[p] == Unstarted
    ensures var t', k := Start(t, env, p), t.os.target[p];
            t'.Valid() && Unique(t'.children, t'.os.target) && t'.doubled == t.doubled &&
            t'.Running() == t.Running() + (if env.start(p).StartRuns? then {k} else {}) &&
            Targets(t'.children, t'.os.target) ==
              Targets(t.children, t.os.target) - if env.start(p).StartRuns? then {} else {k}
  {
    hide Single, Tracked, LiveKeys;
    var k := t.os.target[p];
    UniqueMeans(t.children, t.registry, t.os);
    UniqueDrop(t.children, t.os.target, p);
    StartFacts(t, env, p, k);
    assert k !in t.Running();
  }

  /** New, unstarted children. */
  function Spawn(t: Table, keys: seq<Key>): Table {
    t.(os := Create(t.os, keys), children := t.children + Ids(t.os.next, |keys|))
  }

  lemma SpawnFew(t: Table, a: Key, b: Key)
    ensures Spawn(t, []) == t && Ids(t.os.next, 0) == []
    ensures Spawn(t, [a]) == t.(os := t.os.New(a), children := t.children + [t.os.next]) &&
            Ids(t.os.next, 1) == [t.os.next]
    ensures Spawn(t, [a, b]) == t.(os := t.os.New(a).New(b), children := t.children + [t.os.next] + [t.os.next + 1])
    ensures Ids(t.os.next, 2) == [t.os.next] + [t.os.next + 1]
  {
    CreateFew(t.os, a, b);
    assert t.children + [] == t.children &&
           t.children + [t.os.next] + [t.os.next + 1] == t.children + [t.os.next, t.os.next + 1];
    assert Ids(t.os.next, 2) == [t.os.next, t.os.next + 1];
  }

  lemma SpawnFacts(t: Table, keys: seq<Key>)
    requires t.Valid()
    ensures Spawn(t, keys).Valid() && Spawn(t, keys).os.next == t.os.next + |keys|
    ensures Spawn(t, keys).Running() == t.Running() && LiveKeys(Spawn(t, keys).os) == LiveKeys(t.os)
    ensures t.SingleWorkers() ==> Spawn(t, keys).SingleWorkers()
    ensures forall i :: 0 <= i < |keys| ==> Spawn(t, keys).Waits(t.os.next + i, keys[i])
  {
    CreateKeeps(t.children, t.registry, t.os, keys);
    forall i | 0 <= i < |keys|
      ensures Spawn(t, keys).Waits(t.os.next + i, keys[i])
    {
      CreateAdds(t.os, keys, t.os.next + i);
      assert Ids(t.os.next, |keys|)[i] == t.os.next + i;
    }
  }

  // --------------------------------------------------------- coordinated restart

  lemma NoneStarted(t: Table)
    requires t.children == []
    ensures t.Running() == {} && t.SingleWorkers()
  {
    forall p, q
      ensures !Clash(t.children, t.os, p, q)
    {
    }
  }

  lemma EmptyFacts(t: Table)
    requires t == Table([], map[], [], map[], Os(map[], map[], 0), false)
    ensures t.Valid() && Unique(t.children, t.os.target) && Targets(t.children, t.os.target) == {}
  {
  }

  lemma NothingTracked(t: Table)
    requires t.Valid() && forall p :: !t.os.Live(p)
    ensures t.(children := [], registry := map[]).Valid()
  {
  }

  /** Register and start one respawned worker, or queue it for retry. */
  ghost function Respawn(t: Table, env: Environment, p: Proc, k: Key): Table {
    var t' := Start(t.(registry := t.registry[p := k]), env, p);
    if env.start(p).StartRuns? then t' else Enqueue(t', k)
  }

  ghost predicate Respawns(t: Table, t': Table, tried: set<Key>, up: set<Key>) {
    t'.Valid() && t'.AllUp() && t'.SingleWorkers() && t'.doubled == t.doubled && t'.Running() == t.Running() + up &&
    t'.PendingKeys() == t.PendingKeys() + (tried - up) && (Distinct(t.pending) ==> Distinct(t'.pending)) &&
    t'.os.next >= t.os.next
  }

  lemma RespawnFacts(t: Table, env: Environment, p: Proc, k: Key)
    requires t.Valid() && t.AllUp() && t.SingleWorkers() && t.Waits(p, k) && k !in t.Running()
    ensures Respawns(t, Respawn(t, env, p, k), {k}, if env.start(p).StartRuns? then {k} else {})
  {
    hide Consistent, Tracked, Single, StartedKeys, LiveKeys;
    var t1 := t.(registry := t.registry[p := k]);
    assert t1.Valid() && t1.Waits(p, k) && t1.AllUp() && t1.SingleWorkers() && t1.Running() == t.Running() by {
      RegisterKeeps(t.children, t.registry, t.os, p, k);
    }
    var t2 := Start(t1, env, p);
    StartFacts(t1, env, p, k);
    assert t2.pending == t.pending;
    EnqueueKeeps(t2, k);
  }

  lemma RespawnLeaves(t: Table, env: Environment, p: Proc, j: Key, q: Proc, k: Key)
    requires t.Valid() && t.Waits(p, j) && p != q && t.Waits(q, k)
    ensures Respawn(t, env, p, j).Waits(q, k)
  {
    RegisterKeeps(t.children, t.registry, t.os, p, j);
    StartLeaves(t.(registry := t.registry[p := j]), env, p, q, k);
  }

  lemma RespawnsThen(t: Table, t1: Table, t2: Table, tried: set<Key>, up: set<Key>, tried': set<Key>, up': set<Key>)
    requires Respawns(t, t1, tried, up) && Respawns(t1, t2, tried', up')
    requires up <= tried && up' <= tried' && tried !! tried'
    ensures Respawns(t, t2, tried + tried', up + up')
  {
    hide Consistent, Tracked, Single, StartedKeys, LiveKeys;
    assert (tried + tried') - (up + up') == (tried - up) + (tried' - up');
  }

  /** Respawn the first `n` of the processes `first`, `first + 1`, ... created for these keys. */
  ghost function RespawnProcs(t: Table, env: Environment, first: Proc, keys: seq<Key>, n: nat): Table
    requires n <= |keys|
  {
    if n == 0 then t else Respawn(RespawnProcs(t, env, first, keys, n - 1), env, first + n - 1, keys[n - 1])
  }

  ghost function KeySet(keys: seq<Key>): set<Key> {
    set k | k in keys
  }

  ghost function Tried(keys: seq<Key>, n: nat): set<Key>
    requires n <= |keys|
  {
    set i | 0 <= i < n :: keys[i]
  }

  /** Those of the first `n` keys whose process stays up. */
  ghost function Up(env: Environment, first: Proc, keys: seq<Key>, n: nat): set<Key>
    requires n <= |keys|
  {
    set i | 0 <= i < n && env.start(first + i).StartRuns? :: keys[i]
  }

  lemma TriedNext(env: Environment, first: Proc, keys: seq<Key>, n: nat)
    requires n < |keys| && Distinct(keys)
    ensures Tried(keys, n + 1) == Tried(keys, n) + {keys[n]} && keys[n] !in Tried(keys, n)
    ensures Up(env, first, keys, n + 1) ==
              Up(env, first, keys, n) + if env.start(first + n).StartRuns? then {keys[n]} else {}
    ensures Up(env, first, keys, n) <= Tried(keys, n)
  {
  }

  ghost predicate AllWait(t: Table, first: Proc, keys: seq<Key>, from: nat) {
    forall i :: from <= i < |keys| ==> t.Waits(first + i, keys[i])
  }

  lemma NextWaits(t: Table, first: Proc, keys: seq<Key>, i: nat)
    requires i < |keys| && AllWait(t, first, keys, i)
    ensures t.Waits(first + i, keys[i])
  {
  }

  lemma {:induction false} RespawnProcsFacts(t: Table, env: Environment, first: Proc, keys: seq<Key>, n: nat)
    requires n <= |keys| && Distinct(keys) && AllWait(t, first, keys, 0) && (forall k <- keys :: k !in t.Running())
    requires t.Valid() && t.AllUp() && t.SingleWorkers()
    ensures Respawns(t, RespawnProcs(t, env, first, keys, n), Tried(keys, n), Up(env, first, keys, n))
    ensures AllWait(RespawnProcs(t, env, first, keys, n), first, keys, n)
  {
    hide Consistent, Tracked, Single, StartedKeys, LiveKeys, Start, Table.Waits, Table.Running, Respawn;
    if n == 0 {
    } else {
      var m, p, k := n - 1, first + n - 1, keys[n - 1];
      RespawnProcsFacts(t, env, first, keys, m);
      TriedNext(env, first, keys, m);
      var t1 := RespawnProcs(t, env, first, keys, m);
      RespawnStep(t, t1, env, p, k, Tried(keys, m), Up(env, first, keys, m));
      forall i | n <= i < |keys|
        ensures Respawn(t1, env, p, k).Waits(first + i, keys[i])
      {
        RespawnLeaves(t1, env, p, k, first + i, keys[i]);
      }
    }
  }

  lemma RespawnStep(t: Table, t1: Table, env: Environment, p: Proc, k: Key, tried: set<Key>, up: set<Key>)
    requires Respawns(t, t1, tried, up) && up <= tried && k !in tried && k !in t.Running() && t1.Waits(p, k)
    ensures Respawns(t, Respawn(t1, env, p, k), tried + {k}, up + if env.start(p).StartRuns? then {k} else {})
  {
    hide Consistent, Tracked, Single, StartedKeys, LiveKeys, Start, Table.Waits, Respawn;
    RespawnFacts(t1, env, p, k);
    RespawnsThen(t, t1, Respawn(t1, env, p, k), tried, up, {k}, if env.start(p).StartRuns? then {k} else {});
  }

  /** Queue the first `n` of these keys for retry. */
  function EnqueueAll(t: Table, keys: seq<Key>, n: nat): Table
    requires n <= |keys|
  {
    if n == 0 then t else Enqueue(EnqueueAll(t, keys, n - 1), keys[n - 1])
  }

  lemma {:induction false} EnqueueAllFacts(t: Table, keys: seq<Key>, n: nat)
    requires n <= |keys| && t.Valid() && t.AllUp() && t.SingleWorkers()
    ensures Respawns(t, EnqueueAll(t, keys, n), Tried(keys, n), {})
  {
    hide Consistent, Tracked, Single, StartedKeys, LiveKeys;
    if n > 0 {
      EnqueueAllFacts(t, keys, n - 1);
      EnqueueKeeps(EnqueueAll(t, keys, n - 1), keys[n - 1]);
      assert Tried(keys, n) == Tried(keys, n - 1) + {keys[n - 1]};
    }
  }

  /** One managed instance's part of a coordinated restart. */
  ghost function RespawnArr(t: Table, settings: Settings, env: Environment, category: string,
                            outcome: SpawnOutcome): Table {
    var keys := settings.Created(category, outcome);
    var expected := settings.Created(category, SpawnOk);
    if outcome.SpawnOk? then RespawnProcs(Spawn(t, keys), env, t.os.next, keys, |keys|)
    else EnqueueAll(Spawn(t, keys), expected, |expected|)
  }

  lemma RespawnArrFacts(t: Table, settings: Settings, env: Environment, category: string, outcome: SpawnOutcome)
    returns (up: set<Key>)
    requires t.Valid() && t.AllUp() && t.SingleWorkers() && settings.KeysOf(category) !! t.Running()
    ensures up <= settings.KeysOf(category) &&
            Respawns(t, RespawnArr(t, settings, env, category, outcome), settings.KeysOf(category), up)
    ensures outcome.SpawnOk? && (forall p: Proc :: p >= t.os.next ==> env.start(p).StartRuns?) ==>
              up == settings.KeysOf(category)
  {
    hide Consistent, Tracked, Single, StartedKeys, LiveKeys, RespawnProcs, EnqueueAll, Table.Waits;
    var keys := settings.Created(category, outcome);
    var expected := settings.Created(category, SpawnOk);
    settings.CreatedKeys(category);
    var t1 := Spawn(t, keys);
    SpawnFacts(t, keys);
    if outcome.SpawnOk? {
      RespawnProcsFacts(t1, env, t.os.next, keys, |keys|);
      up := Up(env, t.os.next, keys, |keys|);
    } else {
      EnqueueAllFacts(t1, expected, |expected|);
      up := {};
    }
  }

  /** The respawns of a coordinated restart, for the first `n` managed instances. */
  ghost function RespawnAll(t: Table, settings: Settings, env: Environment, spawns: nat, n: nat): Table
    requires n <= |settings.categories|
  {
    if n == 0 then t
    else
      RespawnArr(RespawnAll(t, settings, env, spawns, n - 1), settings, env, settings.categories[n - 1],
                 env.spawn(spawns + n - 1))
  }

  /** Every managed worker is either running or pending afterwards. */
  lemma {:induction false} RespawnAllFacts(t: Table, settings: Settings, env: Environment, spawns: nat, n: nat)
    requires n <= |settings.categories| && Distinct(settings.categories)
    requires t.Valid() && t.SingleWorkers() && t.Running() == {}
    ensures var t' := RespawnAll(t, settings, env, spawns, n);
            Respawns(t, t', settings.ManagedKeys(n), t'.Running()) && t'.Running() <= settings.ManagedKeys(n) &&
            (env.WorksFrom(spawns, t.os.next) ==> t'.Running() == settings.ManagedKeys(n))
  {
    hide Consistent, Tracked, Single, StartedKeys, LiveKeys, RespawnArr;
    if n > 0 {
      var category := settings.categories[n - 1];
      RespawnAllFacts(t, settings, env, spawns, n - 1);
      settings.ManagedNext(n - 1);
      var t1 := RespawnAll(t, settings, env, spawns, n - 1);
      var up := RespawnArrFacts(t1, settings, env, category, env.spawn(spawns + n - 1));
      RespawnsThen(t, t1, RespawnAll(t, settings, env, spawns, n), settings.ManagedKeys(n - 1), t1.Running(),
                   settings.KeysOf(category), up);
    }
  }

  /** After a coordinated restart only what was pending before can be both pending and running. */
  lemma RestartFacts(t: Table, settings: Settings, env: Environment, spawns: nat)
    requires Distinct(settings.categories) && t.Valid() && t.children == []
    ensures var t' := RespawnAll(t, settings, env, spawns, |settings.categories|);
            t'.Valid() && t'.SingleWorkers() && t'.AllUp() && t'.doubled == t.doubled &&
            (forall k :: k in t'.Running() ==> settings.IsManaged(k)) &&
            (t.PendingManaged(settings) ==> t'.PendingManaged(settings)) &&
            (forall k :: k in t'.pending <==> k in t.pending || (settings.IsManaged(k) && k !in t'.Running())) &&
            (Distinct(t.pending) ==> Distinct(t'.pending)) &&
            (env.WorksFrom(spawns, t.os.next) ==> forall k :: settings.IsManaged(k) ==> k in t'.Running()) &&
            t'.os.next >= t.os.next
  {
    hide Consistent, Tracked, Single, StartedKeys, LiveKeys, RespawnAll, Table.Running, Table.AllUp;
    NoneStarted(t);
    RespawnAllFacts(t, settings, env, spawns, |settings.categories|);
    settings.ManagedAll();
    var t' := RespawnAll(t, settings, env, spawns, |settings.categories|);
    forall k
      ensures k in t'.pending <==> k in t'.PendingKeys()
      ensures k in t.pending <==> k in t.PendingKeys()
    {
    }
  }

  /**
   So the workers are exclusive afterwards exactly when no worker that was
   pending has been started; if everything works from now on, exactly when
   nothing was pending.
   */
  lemma RestartExclusive(t: Table, settings: Settings, env: Environment, spawns: nat)
    requires Distinct(settings.categories) && t.Valid() && t.children == [] && t.PendingManaged(settings)
    ensures var t' := RespawnAll(t, settings, env, spawns, |settings.categories|);
            !t.doubled && Distinct(t.pending) ==>
              (t'.Exclusive() <==> forall k <- t.pending :: k !in t'.Running()) &&
              (env.WorksFrom(spawns, t.os.next) ==> (t'.Exclusive() <==> t.pending == []))
  {
    hide Consistent, Tracked, Single, StartedKeys, LiveKeys, RespawnAll, Table.Running, Table.AllUp;
    RestartFacts(t, settings, env, spawns);
    var t' := RespawnAll(t, settings, env, spawns, |settings.categories|);
    forall k
      ensures k in t'.pending <==> k in t'.PendingKeys()
    {
    }
    if t.pending != [] {
      assert t.pending[0] in t.pending;
    }
  }

  /** A coordinated restart can be relied on, whatever happens next, exactly when nothing is pending. */
  lemma RestartSafeIff(t: Table, settings: Settings, spawns: nat)
    requires Distinct(settings.categories) && t.Valid() && t.children == [] && t.PendingManaged(settings)
    requires !t.doubled && Distinct(t.pending)
    ensures (forall env: Environment :: RespawnAll(t, settings, env, spawns, |settings.categories|).Exclusive()) <==>
              t.pending == []
  {
    hide *;
    if t.pending == [] {
      forall env: Environment
        ensures RespawnAll(t, settings, env, spawns, |settings.categories|).Exclusive()
      {
        RestartExclusive(t, settings, env, spawns);
        RestartClean(t);
      }
    } else {
      var env := Working();
      RestartExclusive(t, settings, env, spawns);
    }
  }

  /** An environment in which nothing ever fails. */
  ghost function Working(): (env: Environment)
    ensures forall spawns, next :: env.WorksFrom(spawns, next)
  {
    Environment(n => SpawnOk, p => StartRuns, (p, n) => StillRunning, n => false, n => 0.0)
  }

  // --------------------------------------------------------------- pending spawns

  /** Start the worker being retried. */
  ghost function RetryStart(t: Table, env: Environment, p: Proc, k: Key, attempts: nat): Table {
    var t' := Start(t, env, p);
    if env.start(p).StartRuns? then t'.(registry := t'.registry[p := k], failedAttempts := t'.failedAttempts - {k})
    else t'.(failedAttempts := t'.failedAttempts[k := attempts + 1])
  }

  /** A process created for `j` while retrying `k`: start it if it is the one wanted, else discard it. */
  ghost function RetryStep(t: Table, env: Environment, p: Proc, j: Key, k: Key, attempts: nat): Table {
    if j.role == k.role then RetryStart(t, env, p, k, attempts) else Discard(t, p)
  }

  /** Of the first `n` processes created to retry `k`, start the one for its role and discard the others. */
  ghost function RetryProcs(t: Table, env: Environment, first: Proc, keys: seq<Key>, n: nat, k: Key,
                            attempts: nat): Table
    requires n <= |keys|
  {
    if n == 0 then t
    else
      RetryStep(RetryProcs(t, env, first, keys, n - 1, k, attempts), env, first + n - 1, keys[n - 1], k, attempts)
  }

  ghost predicate Untouched(t: Table, t': Table) {
    t'.Valid() && t'.Running() == t.Running() && LiveKeys(t'.os) == LiveKeys(t.os) && t'.pending == t.pending &&
    t'.doubled == t.doubled && t'.failedAttempts == t.failedAttempts && (t.SingleWorkers() ==> t'.SingleWorkers()) &&
    t'.os.next >= t.os.next
  }

  /** `k` has been retried, successfully or not. */
  ghost predicate Retried(t: Table, t': Table, k: Key, up: bool, attempts: nat) {
    t'.Valid() && t'.pending == t.pending && t'.Running() == t.Running() + (if up then {k} else {}) &&
    t'.failedAttempts == (if up then t.failedAttempts - {k} else t.failedAttempts[k := attempts + 1]) &&
    (t.doubled ==> t'.doubled) && (up && k in LiveKeys(t.os) ==> t'.doubled) &&
    (t.SingleWorkers() && k !in t.Running() ==> t'.SingleWorkers() && t'.doubled == t.doubled) &&
    t'.os.next >= t.os.next
  }

  lemma DiscardFacts(t: Table, p: Proc, k: Key)
    requires t.Valid() && t.Waits(p, k)
    ensures Untouched(t, Discard(t, p))
  {
    DropKeeps(t.children, t.registry, t.os, p);
  }

  lemma RetryLeaves(t: Table, env: Environment, p: Proc, j: Key, k: Key, attempts: nat, q: Proc, l: Key)
    requires t.Valid() && t.Waits(p, j) && p != q && t.Waits(q, l)
    ensures RetryStep(t, env, p, j, k, attempts).Waits(q, l)
  {
    WithoutMembers(t.children, p);
    StartLeaves(t, env, p, q, l);
  }

  lemma RetryStartFacts(t: Table, env: Environment, p: Proc, k: Key, attempts: nat)
    requires t.Valid() && t.Waits(p, k)
    ensures Retried(t, RetryStart(t, env, p, k, attempts), k, env.start(p).StartRuns?, attempts)
  {
    hide Consistent, Tracked, Single, StartedKeys, LiveKeys;
    StartFacts(t, env, p, k);
    var t' := Start(t, env, p);
    RegisterKeeps(t'.children, t'.registry, t'.os, p, k);
  }

  lemma UntouchedThen(t: Table, t1: Table, t2: Table, k: Key, up: bool, attempts: nat)
    requires Untouched(t, t1)
    ensures Untouched(t1, t2) ==> Untouched(t, t2)
    ensures Retried(t1, t2, k, up, attempts) ==> Retried(t, t2, k, up, attempts)
  {
    hide Consistent, Tracked, Single, StartedKeys, LiveKeys;
  }

  lemma RetriedThen(t: Table, t1: Table, t2: Table, k: Key, up: bool, attempts: nat)
    requires Retried(t, t1, k, up, attempts) && Untouched(t1, t2)
    ensures Retried(t, t2, k, up, attempts)
  {
    hide Consistent, Tracked, Single, StartedKeys, LiveKeys;
  }

  /** The wanted process comes first. */
  lemma RetryThenDiscard(t: Table, env: Environment, p: Proc, k: Key, q: Proc, j: Key, attempts: nat)
    requires t.Valid() && t.Waits(p, k) && t.Waits(q, j) && p != q && j.role != k.role
    ensures var t1 := RetryStep(t, env, p, k, k, attempts);
            Retried(t, t1, k, env.start(p).StartRuns?, attempts) &&
            Retried(t, RetryStep(t1, env, q, j, k, attempts), k, env.start(p).StartRuns?, attempts)
  {
    hide Consistent, Tracked, Single, StartedKeys, LiveKeys, Start, Table.Waits;
    var t1 := RetryStep(t, env, p, k, k, attempts);
    RetryStartFacts(t, env, p, k, attempts);
    RetryLeaves(t, env, p, k, k, attempts, q, j);
    DiscardFacts(t1, q, j);
    RetriedThen(t, t1, Discard(t1, q), k, env.start(p).StartRuns?, attempts);
  }

  /** The wanted process comes second. */
  lemma DiscardThenRetry(t: Table, env: Environment, p: Proc, k: Key, q: Proc, j: Key, attempts: nat)
    requires t.Valid() && t.Waits(p, k) && t.Waits(q, j) && p != q && j.role != k.role
    ensures var t1 := RetryStep(t, env, q, j, k, attempts);
            Retried(t, RetryStep(t1, env, p, k, k, attempts), k, env.start(p).StartRuns?, attempts)
  {
    hide Consistent, Tracked, Single, StartedKeys, LiveKeys, Start, Table.Waits;
    var t1 := Discard(t, q);
    DiscardFacts(t, q, j);
    RetryLeaves(t, env, q, j, k, attempts, p, k);
    RetryStartFacts(t1, env, p, k, attempts);
    UntouchedThen(t, t1, RetryStart(t1, env, p, k, attempts), k, env.start(p).StartRuns?, attempts);
  }

  /** While retrying, the processes not yet looked at are still waiting. */
  lemma {:induction false} RetryProcsWait(t: Table, env: Environment, first: Proc, keys: seq<Key>, n: nat, k: Key,
                                          attempts: nat)
    requires n <= |keys| && t.Valid() && AllWait(t, first, keys, 0) && forall j <- keys :: j.category == k.category
    ensures var t' := RetryProcs(t, env, first, keys, n, k, attempts);
            t'.Valid() && AllWait(t', first, keys, n)
  {
    hide Consistent, Tracked, Single, StartedKeys, LiveKeys, Start, Discard, RetryStart, Table.Waits;
    if n > 0 {
      var t1, p, j := RetryProcs(t, env, first, keys, n - 1, k, attempts), first + n - 1, keys[n - 1];
      RetryProcsWait(t, env, first, keys, n - 1, k, attempts);
      assert t1.Waits(p, j);
      if j.role == k.role {
        RetryStartFacts(t1, env, p, k, attempts);
      } else {
        DiscardFacts(t1, p, j);
      }
      forall i | n <= i < |keys|
        ensures RetryStep(t1, env, p, j, k, attempts).Waits(first + i, keys[i])
      {
        RetryLeaves(t1, env, p, j, k, attempts, first + i, keys[i]);
      }
    }
  }

  /** One entry of the pending list retried. */
  ghost function Retry(t: Table, settings: Settings, env: Environment, k: Key, outcome: SpawnOutcome): Table {
    var keys, attempts := settings.Created(k.category, outcome), Attempts(t.failedAttempts, k);
    var t' := Spawn(t, keys);
    if outcome.SpawnOk? then RetryProcs(t', env, t.os.next, keys, |keys|, k, attempts)
    else t'.(failedAttempts := t'.failedAttempts[k := attempts + 1])
  }

  /** Where a managed worker's key is among those created for its category. */
  function Place(settings: Settings, k: Key): nat {
    if k.role == Torrent && k.category in settings.searchMissing then 1 else 0
  }

  /** Whether the retried worker is up: its spawn worked and its process stayed alive. */
  predicate Recovered(t: Table, settings: Settings, env: Environment, k: Key, outcome: SpawnOutcome) {
    outcome.SpawnOk? && env.start(t.os.next + Place(settings, k)).StartRuns?
  }

  lemma PlaceFacts(settings: Settings, k: Key)
    requires settings.IsManaged(k)
    ensures var keys, at := settings.Created(k.category, SpawnOk), Place(settings, k);
            at < |keys| <= 2 && keys[at] == k && (forall i :: 0 <= i < |keys| && i != at ==> keys[i].role != k.role) &&
            forall j <- keys :: j.category == k.category
  {
  }

  lemma RetryProcsFacts(t: Table, env: Environment, first: Proc, keys: seq<Key>, at: nat, attempts: nat)
    requires at < |keys| <= 2 && t.Valid() && AllWait(t, first, keys, 0)
    requires forall i :: 0 <= i < |keys| && i != at ==> keys[i].role != keys[at].role
    ensures Retried(t, RetryProcs(t, env, first, keys, |keys|, keys[at], attempts), keys[at],
                    env.start(first + at).StartRuns?, attempts)
  {
    hide Consistent, Tracked, Single, StartedKeys, LiveKeys, RetryStart, Retried;
    var k := keys[at];
    assert t.Waits(first, keys[0]) && t.Waits(first + at, k);
    assert RetryProcs(t, env, first, keys, 1, k, attempts) == RetryStep(t, env, first, keys[0], k, attempts);
    if |keys| == 1 {
      RetryStartFacts(t, env, first, k, attempts);
    } else if at == 0 {
      RetryThenDiscard(t, env, first, k, first + 1, keys[1], attempts);
    } else {
      DiscardThenRetry(t, env, first + 1, k, first, keys[0], attempts);
    }
  }

  lemma SpawnLeaves(t: Table, keys: seq<Key>)
    requires t.Valid()
    ensures Untouched(t, Spawn(t, keys)) && AllWait(Spawn(t, keys), t.os.next, keys, 0)
  {
    SpawnFacts(t, keys);
  }

  lemma RetryFails(t: Table, t1: Table, k: Key, attempts: nat)
    requires Untouched(t, t1)
    ensures Retried(t, t1.(failedAttempts := t1.failedAttempts[k := attempts + 1]), k, false, attempts)
  {
    hide Consistent, Tracked, Single, StartedKeys, LiveKeys;
    EnqueueKeeps(t1, k);
  }

  /** Retrying a managed worker. */
  lemma RetryFacts(t: Table, settings: Settings, env: Environment, k: Key, outcome: SpawnOutcome)
    requires t.Valid() && settings.IsManaged(k)
    ensures Retried(t, Retry(t, settings, env, k, outcome), k, Recovered(t, settings, env, k, outcome),
                    Attempts(t.failedAttempts, k))
  {
    hide Retried, Untouched, Table.Valid, RetryProcs, AllWait, Spawn, Settings.Created, Settings.IsManaged, Place,
         LiveKeys;
    var keys, attempts := settings.Created(k.category, outcome), Attempts(t.failedAttempts, k);
    SpawnLeaves(t, keys);
    if outcome.SpawnOk? {
      PlaceFacts(settings, k);
      RetryProcsFacts(Spawn(t, keys), env, t.os.next, keys, Place(settings, k), attempts);
      UntouchedThen(t, Spawn(t, keys), Retry(t, settings, env, k, outcome), k,
                    Recovered(t, settings, env, k, outcome), attempts);
    } else {
      RetryFails(t, Spawn(t, keys), k, attempts);
    }
  }

  /** The first `n` entries of the pending list retried, in order. */
  ghost function RetryAll(t: Table, settings: Settings, env: Environment, spawns: nat, queue: seq<Key>, n: nat): Table
    requires n <= |queue|
  {
    if n == 0 then t
    else Retry(RetryAll(t, settings, env, spawns, queue, n - 1), settings, env, queue[n - 1], env.spawn(spawns + n - 1))
  }

  /** Those that did not come up, in order. */
  ghost function Requeued(t: Table, settings: Settings, env: Environment, spawns: nat, queue: seq<Key>,
                          n: nat): seq<Key>
    requires n <= |queue|
  {
    if n == 0 then []
    else
      var t' := RetryAll(t, settings, env, spawns, queue, n - 1);
      Requeued(t, settings, env, spawns, queue, n - 1) +
      if Recovered(t', settings, env, queue[n - 1], env.spawn(spawns + n - 1)) then [] else [queue[n - 1]]
  }

  /** Whatever was pending, the lists stay consistent; and a pending worker that was live is doubled. */
  lemma {:induction false} RetryAllFacts(t: Table, settings: Settings, env: Environment, spawns: nat, queue: seq<Key>,
                                         n: nat)
    requires n <= |queue| && t.Valid() && forall k <- queue :: settings.IsManaged(k)
    ensures var t' := RetryAll(t, settings, env, spawns, queue, n);
            t'.Valid() && t'.pending == t.pending && (t.doubled ==> t'.doubled) &&
            (n > 0 && queue[0] in LiveKeys(t.os) && Recovered(t, settings, env, queue[0], env.spawn(spawns)) ==>
               t'.doubled)
  {
    hide Consistent, Tracked, Single, StartedKeys, LiveKeys, Recovered, Retry;
    if n > 0 {
      RetryAllFacts(t, settings, env, spawns, queue, n - 1);
      RetryFacts(RetryAll(t, settings, env, spawns, queue, n - 1), settings, env, queue[n - 1],
                 env.spawn(spawns + n - 1));
      if n == 1 {
        assert RetryAll(t, settings, env, spawns, queue, 0) == t;
      }
    }
  }

  /**
   Without an overlap, every pending worker ends up either running or pending
   again, never both, and none is doubled.
   */
  lemma {:induction false} RetryAllExclusive(t: Table, settings: Settings, env: Environment, spawns: nat,
                                             queue: seq<Key>, n: nat)
    requires n <= |queue| && t.Valid() && forall k <- queue :: settings.IsManaged(k)
    requires t.SingleWorkers() && Distinct(queue) && forall k <- queue :: k !in t.Running()
    ensures var t', q := RetryAll(t, settings, env, spawns, queue, n), Requeued(t, settings, env, spawns, queue, n);
            t'.SingleWorkers() && t'.doubled == t.doubled && Distinct(q) && KeySet(q) <= Tried(queue, n) &&
            t'.Running() == t.Running() + (Tried(queue, n) - KeySet(q))
  {
    hide Consistent, Tracked, Single, StartedKeys, LiveKeys, Recovered, Retry, Table.Running;
    if n > 0 {
      var m, k := n - 1, queue[n - 1];
      RetryAllExclusive(t, settings, env, spawns, queue, m);
      RetryAllFacts(t, settings, env, spawns, queue, m);
      var t1, q1 := RetryAll(t, settings, env, spawns, queue, m), Requeued(t, settings, env, spawns, queue, m);
      RetryFacts(t1, settings, env, k, env.spawn(spawns + m));
      RequeueNext(queue, m, q1);
    }
  }

  lemma RequeueNext(queue: seq<Key>, n: nat, q: seq<Key>)
    requires n < |queue| && Distinct(queue) && Distinct(q) && KeySet(q) <= Tried(queue, n)
    ensures Distinct(q + [queue[n]]) && queue[n] !in Tried(queue, n) && q + [] == q
    ensures KeySet(q) <= Tried(queue, n + 1) && KeySet(q + [queue[n]]) <= Tried(queue, n + 1)
    ensures Tried(queue, n + 1) - KeySet(q) == Tried(queue, n) - KeySet(q) + {queue[n]}
    ensures Tried(queue, n + 1) - KeySet(q + [queue[n]]) == Tried(queue, n) - KeySet(q)
  {
    var k := queue[n];
    assert k !in Tried(queue, n);
    assert k !in KeySet(q);
    assert Tried(queue, n + 1) == Tried(queue, n) + {k};
    assert KeySet(q + [k]) == KeySet(q) + {k};
  }

  lemma {:induction false} RequeuedWerePending(t: Table, settings: Settings, env: Environment, spawns: nat,
                                               queue: seq<Key>, n: nat)
    requires n <= |queue|
    ensures forall k <- Requeued(t, settings, env, spawns, queue, n) :: k in queue
  {
    hide RetryAll, Recovered;
    if n > 0 {
      RequeuedWerePending(t, settings, env, spawns, queue, n - 1);
    }
  }

  /** The pending list retried and replaced by what did not come up. */
  ghost function RetryPending(t: Table, settings: Settings, env: Environment, spawns: nat): Table {
    RetryAll(t, settings, env, spawns, t.pending, |t.pending|).(
      pending := Requeued(t, settings, env, spawns, t.pending, |t.pending|))
  }

  /** If everything works from now on, every retried worker comes up. */
  lemma {:induction false} RetryAllWorks(t: Table, settings: Settings, env: Environment, spawns: nat, queue: seq<Key>,
                                         n: nat)
    requires n <= |queue| && t.Valid() && forall k <- queue :: settings.IsManaged(k)
    requires env.WorksFrom(spawns, t.os.next)
    ensures var t' := RetryAll(t, settings, env, spawns, queue, n);
            t'.Valid() && t'.os.next >= t.os.next && t'.Running() == t.Running() + Tried(queue, n) &&
            Requeued(t, settings, env, spawns, queue, n) == []
  {
    hide Table.Valid, Table.Running, Table.SingleWorkers, LiveKeys, Retry, Settings.IsManaged;
    if n > 0 {
      RetryAllWorks(t, settings, env, spawns, queue, n - 1);
      var t1 := RetryAll(t, settings, env, spawns, queue, n - 1);
      RetryFacts(t1, settings, env, queue[n - 1], env.spawn(spawns + n - 1));
      assert Tried(queue, n) == Tried(queue, n - 1) + {queue[n - 1]};
    } else {
      assert Tried(queue, n) == {};
    }
  }

  lemma RetryPendingWorks(t: Table, settings: Settings, env: Environment, spawns: nat)
    requires t.Valid() && t.PendingManaged(settings) && env.WorksFrom(spawns, t.os.next)
    ensures var t' := RetryPending(t, settings, env, spawns);
            t'.pending == [] && t'.Running() == t.Running() + t.PendingKeys() && t'.os.next >= t.os.next
  {
    RetryAllWorks(t, settings, env, spawns, t.pending, |t.pending|);
    assert Tried(t.pending, |t.pending|) == t.PendingKeys();
  }

  /** No pending worker is lost, and exclusive workers stay so; but a pending worker that was live is doubled. */
  lemma RetryPendingFacts(t: Table, settings: Settings, env: Environment, spawns: nat)
    requires t.Valid() && t.PendingManaged(settings)
    ensures var t' := RetryPending(t, settings, env, spawns);
            t'.Valid() && t'.PendingManaged(settings) && (t.doubled ==> t'.doubled) &&
            (t.Exclusive() ==> t'.Exclusive() && t'.Running() + t'.PendingKeys() == t.Running() + t.PendingKeys()) &&
            (t.pending != [] && t.pending[0] in LiveKeys(t.os) && env.WorksFrom(spawns, t.os.next) ==> t'.doubled)
  {
    hide Consistent, Tracked, Single, StartedKeys, LiveKeys, RetryAll, Requeued;
    var n := |t.pending|;
    RetryAllFacts(t, settings, env, spawns, t.pending, n);
    RequeuedWerePending(t, settings, env, spawns, t.pending, n);
    RetryPendingExclusive(t, settings, env, spawns);
  }

  lemma RetryPendingExclusive(t: Table, settings: Settings, env: Environment, spawns: nat)
    requires t.Valid() && t.PendingManaged(settings)
    ensures var t' := RetryPending(t, settings, env, spawns);
            t.Exclusive() ==> t'.Exclusive() && t'.Running() + t'.PendingKeys() == t.Running() + t.PendingKeys()
  {
    hide Consistent, Tracked, Single, StartedKeys, LiveKeys, RetryAll, Requeued;
    if t.Exclusive() {
      var n, q := |t.pending|, Requeued(t, settings, env, spawns, t.pending, |t.pending|);
      assert forall k <- t.pending :: k in t.PendingKeys();
      RetryAllExclusive(t, settings, env, spawns, t.pending, n);
      assert Tried(t.pending, n) == t.PendingKeys();
      assert RetryPending(t, settings, env, spawns).Running() ==
               RetryAll(t, settings, env, spawns, t.pending, n).Running();
    }
  }

  // ------------------------------------------------------------------ crash restart

  /** No worker is added to those running, workers stay single, and the pending list is left alone. */
  ghost predicate Shrunk(t: Table, t': Table) {
    t'.Valid() && t'.Running() <= t.Running() && t'.pending == t.pending && t'.failedAttempts == t.failedAttempts &&
    (t.SingleWorkers() ==> t'.SingleWorkers() && t'.doubled == t.doubled)
  }

  /** The other children and processes are as they were. */
  ghost predicate OthersStay(t: Table, t': Table, p: Proc) {
    (forall q :: q in t.children && q != p ==> q in t'.children) &&
    (forall q :: q in t'.children ==> q in t.children || q !in t.os.status) &&
    (forall q :: q in t.os.target ==> q in t'.os.target && t'.os.target[q] == t.os.target[q]) &&
    forall q :: q in t.os.status ==> q in t'.os.status && (q != p ==> t'.os.status[q] == t.os.status[q])
  }

  /** The other children are registered as they were. */
  ghost predicate OthersRegistered(t: Table, t': Table, p: Proc) {
    forall q :: q in t.children && q != p && q in t.registry ==> q in t'.registry && t'.registry[q] == t.registry[q]
  }

  /** Handling child `p` does no more, and leaves the other children and processes as they are. */
  ghost predicate Kept(t: Table, t': Table, p: Proc) {
    Shrunk(t, t') && OthersStay(t, t', p) && OthersRegistered(t, t', p)
  }

  lemma ChildFacts(t: Table, p: Proc)
    requires t.Valid() && p in t.children
    ensures p in t.os.status && p in t.os.target && (p in t.registry ==> t.registry[p] == t.os.target[p])
    ensures t.os.status[p] != Unstarted ==> Runs(t.children, t.os, p)
    ensures Kept(t, t, p)
  {
  }

  lemma ChildrenStay(t: Table)
    requires t.Valid()
    ensures Shrunk(t, t) && forall p :: Kept(t, t, p)
  {
  }

  lemma ChildrenKnown(t: Table)
    requires t.Valid()
    ensures forall p <- t.children :: p in t.os.status && p in t.os.target
  {
  }

  lemma DistinctChildren(t: Table)
    requires t.Valid()
    ensures Distinct(t.children) && forall p <- t.children :: p in t.os.status
  {
  }

  lemma KeptThen(t: Table, t1: Table, t2: Table, p: Proc)
    requires Kept(t, t1, p) && Kept(t1, t2, p)
    ensures Kept(t, t2, p)
  {
  }

  lemma ShrunkThen(t: Table, t1: Table, t2: Table)
    requires Shrunk(t, t1) && Shrunk(t1, t2)
    ensures Shrunk(t, t2)
  {
  }

  /** Started children that are all up are live. */
  lemma UpAreLive(t: Table)
    requires t.Valid() && t.AllUp() && t.SingleWorkers()
    ensures forall p <- t.children :: p in t.os.status && (t.os.Live(p) || t.os.status[p] == Unstarted)
  {
    forall p | p in t.children && t.os.status[p] != Unstarted
      ensures t.os.Live(p)
    {
      var k := t.os.target[p];
      assert Runs(t.children, t.os, p);
      assert k in t.Running();
      var q :| q in t.os.status && t.os.Live(q) && q in t.os.target && t.os.target[q] == k;
      assert !Clash(t.children, t.os, p, q);
    }
  }

  lemma RestartClean(t: Table)
    ensures t.Exclusive() ==> !t.doubled && Distinct(t.pending)
    ensures t.pending == [] ==> forall k <- t.pending, other: set<Key> :: k !in other
  {
  }

  lemma ShrunkExclusive(t: Table, t': Table, settings: Settings)
    requires Shrunk(t, t')
    ensures t'.Valid() && t'.pending == t.pending && (t.SingleWorkers() ==> t'.SingleWorkers())
    ensures t.Exclusive() ==> t'.Exclusive()
    ensures t.PendingManaged(settings) ==> t'.PendingManaged(settings)
  {
  }

  /** A child is found dead, or killed. */
  lemma DiesFacts(t: Table, p: Proc, code: int)
    requires t.Valid() && t.os.Live(p)
    ensures Kept(t, t.(os := t.os.Set(p, Exited(code))), p) && LiveKeys(t.os.Set(p, Exited(code))) <= LiveKeys(t.os)
    ensures t.(os := t.os.Set(p, Exited(code))).Running() == t.Running()
  {
    DeathKeeps(t.children, t.registry, t.os, p, code);
  }

  /** What exclusiveness promises about the real processes. */
  lemma ExclusiveFacts(t: Table)
    requires t.Valid() && t.Exclusive()
    ensures forall p, q :: t.os.Live(p) && t.os.Live(q) && t.os.target[p] == t.os.target[q] ==> p == q
    ensures forall k <- t.pending :: k !in LiveKeys(t.os)
  {
    assert forall k <- t.pending :: k in t.PendingKeys();
    ExclusiveMeans(t.children, t.registry, t.os, t.pending);
  }

  /** A process created and never listed changes nothing. */
  lemma NewUnlisted(t: Table, k: Key)
    requires t.Valid()
    ensures t.(os := t.os.New(k)).Valid() && forall p :: Kept(t, t.(os := t.os.New(k)), p)
    ensures forall p <- t.children :: p in t.os.status && t.os.New(k).status[p] == t.os.status[p] &&
                                      p in t.os.target && t.os.New(k).target[p] == t.os.target[p]
    ensures t.(os := t.os.New(k)).Running() == t.Running()
    ensures t.SingleWorkers() ==> t.(os := t.os.New(k)).SingleWorkers()
  {
    NewKeeps(t.children, t.registry, t.os, k, t.children);
  }

  /** A started process takes over from a dead child. */
  ghost function Replace(t: Table, env: Environment, gone: Proc, k: Key): Table {
    var p := t.os.next;
    t.(os := t.os.New(k).Set(p, env.After(p)), children := Without(t.children, gone) + [p],
       registry := (t.registry - {gone})[p := k], doubled := t.doubled || k in LiveKeys(t.os))
  }

  lemma ReplaceFacts(t: Table, env: Environment, gone: Proc, k: Key)
    requires t.Valid() && Runs(t.children, t.os, gone) && !t.os.Live(gone) && t.os.target[gone] == k
    requires !env.start(t.os.next).StartRaises?
    ensures Replace(t, env, gone, k).Running() == t.Running() && Kept(t, Replace(t, env, gone, k), gone)
    ensures Replace(t, env, gone, k).Valid() && gone !in Replace(t, env, gone, k).children
    ensures t.SingleWorkers() ==> Replace(t, env, gone, k).SingleWorkers()
  {
    hide Single, StartedKeys, LiveKeys;
    var p := t.os.next;
    var os' := t.os.New(k).Set(p, env.After(p));
    LaunchKeeps(t.children, t.registry, t.os, k, env.After(p));
    ReplaceKeeps(t.children, t.registry, os', gone, p);
    WithoutMembers(t.children, gone);
    if t.SingleWorkers() {
      DeadKeyIsFree(t.children, t.registry, t.os, gone);
    }
  }

  /** The dead child's own record is left as it was. */
  lemma ReplacedStays(t: Table, env: Environment, gone: Proc, k: Key)
    requires t.Valid() && gone in t.children && t.os.target[gone] == k
    ensures var t' := Replace(t, env, gone, k);
            gone in t'.os.status && gone in t'.os.target && t'.os.status[gone] == t.os.status[gone] &&
            t'.os.target[gone] == k
  {
  }

  lemma DropFacts(t: Table, p: Proc)
    requires t.Valid() && !t.os.Live(p)
    ensures Kept(t, Discard(t, p), p) && Discard(t, p).Valid()
    ensures t.SingleWorkers() && Runs(t.children, t.os, p) ==> Discard(t, p).Running() == t.Running() - {t.os.target[p]}
    ensures forall q :: q in Discard(t, p).children <==> q in t.children && q != p
  {
    DropKeeps(t.children, t.registry, t.os, p);
    WithoutMembers(t.children, p);
  }
}
