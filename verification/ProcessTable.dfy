/**
 What the supervisor's tracking lists say about the operating system's
 processes, and how the elementary changes (create, start, die, drop, replace)
 affect it.
 */
module ProcessTable {
  import opened Sequences

  type Proc = nat

  datatype Role = Search | Torrent | CategoryManager | Unknown

  /** A worker's (category, role). */
  datatype Key = Key(category: string, role: Role)

  datatype Status = Unstarted | Alive | Exited(code: int)

  /** The operating system's view: each process's status, and the worker it was created to run. */
  datatype Os = Os(status: map<Proc, Status>, target: map<Proc, Key>, next: Proc) {
    ghost predicate Valid() {
      status.Keys == target.Keys && forall p :: p in status ==> p < next
    }

    predicate Live(p: Proc) {
      p in status && status[p].Alive?
    }

    predicate Started(p: Proc) {
      p in status && p in target && status[p] != Unstarted
    }

    function New(k: Key): Os {
      Os(status[next := Unstarted], target[next := k], next + 1)
    }

    function Set(p: Proc, s: Status): Os {
      this.(status := status[p := s])
    }
  }

  /** `list.remove` on a list without duplicates. */
  function Without<T(==)>(s: seq<T>, x: T): seq<T> {
    Filter(y => y != x, s)
  }

  lemma WithoutMembers<T>(s: seq<T>, x: T)
    ensures (Distinct(s) ==> Distinct(Without(s, x))) && forall y :: y in Without(s, x) <==> y in s && y != x
  {
    FilterMembers(y => y != x, s);
    if Distinct(s) {
      FilterDistinct(y => y != x, s);
    }
  }

  /** The tracked processes exist, and are registered under what they run. */
  ghost predicate Consistent(children: seq<Proc>, registry: map<Proc, Key>, os: Os) {
    os.Valid() && Distinct(children) && (forall p :: p in children ==> p in os.status) &&
    forall p :: p in registry ==> p in os.target && registry[p] == os.target[p]
  }

  /** Every live process is tracked. */
  ghost predicate Tracked(children: seq<Proc>, os: Os) {
    forall p :: os.Live(p) ==> p in children
  }

  predicate Runs(children: seq<Proc>, os: Os, p: Proc) {
    p in children && os.Started(p)
  }

  /** Keys of the children that have been started. */
  ghost function StartedKeys(children: seq<Proc>, os: Os): set<Key> {
    set p | p in children && Runs(children, os, p) :: os.target[p]
  }

  /** Keys of all live worker processes, tracked or not. */
  ghost function LiveKeys(os: Os): set<Key> {
    set p | p in os.status && os.Live(p) && p in os.target :: os.target[p]
  }

  predicate Clash(children: seq<Proc>, os: Os, p: Proc, q: Proc) {
    p != q && Runs(children, os, p) && Runs(children, os, q) && os.target[p] == os.target[q]
  }

  /** No two started children run the same worker. */
  ghost predicate Single(children: seq<Proc>, os: Os) {
    forall p, q :: !Clash(children, os, p, q)
  }

  lemma SingleFollows(children: seq<Proc>, os: Os, children': seq<Proc>, os': Os)
    requires forall p :: Runs(children', os', p) ==> Runs(children, os, p) && os'.target[p] == os.target[p]
    ensures Single(children, os) ==> Single(children', os')
  {
    forall p, q
      ensures Clash(children', os', p, q) ==> Clash(children, os, p, q)
    {
    }
  }

  /** What the children were created to run. */
  ghost function Targets(children: seq<Proc>, target: map<Proc, Key>): set<Key> {
    set p | p in children && p in target :: target[p]
  }

  /** No two children, started or not, were created for the same worker. */
  ghost predicate Unique(children: seq<Proc>, target: map<Proc, Key>) {
    forall p, q :: p in children && q in children && p in target && q in target && target[p] == target[q] ==> p == q
  }

  // ------------------------------------------------------------- elementary changes

  /** Creating a process changes nothing, whether or not it is listed as a child at once. */
  lemma NewKeeps(children: seq<Proc>, registry: map<Proc, Key>, os: Os, k: Key, children': seq<Proc>)
    requires Consistent(children, registry, os) && (children' == children || children' == children + [os.next])
    ensures Consistent(children', registry, os.New(k)) && os.next !in children
    ensures Tracked(children, os) ==> Tracked(children', os.New(k))
    ensures StartedKeys(children', os.New(k)) == StartedKeys(children, os) && LiveKeys(os.New(k)) == LiveKeys(os)
    ensures Single(children, os) ==> Single(children', os.New(k))
  {
    assert os.next !in os.status;
    DistinctAppend(children, [os.next]);
    forall p
      ensures Runs(children', os.New(k), p) <==> Runs(children, os, p)
      ensures os.New(k).Live(p) <==> os.Live(p)
    {
    }
    SingleFollows(children, os, children', os.New(k));
  }

  /** Create one process per key, in order. */
  function Create(os: Os, keys: seq<Key>): Os
    decreases |keys|
  {
    if keys == [] then os else Create(os, keys[..|keys| - 1]).New(keys[|keys| - 1])
  }

  /** The processes that creates. */
  function Ids(first: Proc, n: nat): seq<Proc> {
    seq(n, i requires 0 <= i < n => first + i)
  }

  lemma CreatedFirst(os: Os, keys: seq<Key>)
    requires os.Valid()
    ensures Create(os, keys).next == os.next + |keys|
    ensures keys == [] ==> Ids(os.next, |keys|) == []
    ensures keys != [] ==> os.next in Ids(os.next, |keys|)
  {
    CreateAdds(os, keys, os.next);
    if keys != [] {
      assert Ids(os.next, |keys|)[0] == os.next;
    }
  }

  lemma CreateFew(os: Os, a: Key, b: Key)
    ensures Create(os, []) == os && Create(os, [a]) == os.New(a) && Create(os, [a, b]) == os.New(a).New(b)
  {
    assert [a][..0] == [] && [a, b][..1] == [a];
    assert Create(os, [a]) == os.New(a);
  }

  /** Creating processes and listing them at once disturbs nothing. */
  lemma {:induction false} CreateKeeps(children: seq<Proc>, registry: map<Proc, Key>, os: Os, keys: seq<Key>)
    requires Consistent(children, registry, os)
    ensures Create(os, keys).next == os.next + |keys|
    ensures Consistent(children + Ids(os.next, |keys|), registry, Create(os, keys))
    ensures Tracked(children, os) ==> Tracked(children + Ids(os.next, |keys|), Create(os, keys))
    ensures StartedKeys(children + Ids(os.next, |keys|), Create(os, keys)) == StartedKeys(children, os)
    ensures LiveKeys(Create(os, keys)) == LiveKeys(os)
    ensures Single(children, os) ==> Single(children + Ids(os.next, |keys|), Create(os, keys))
    decreases |keys|
  {
    var n := |keys| - 1;
    if n < 0 {
      assert children + Ids(os.next, 0) == children;
    } else {
      CreateKeeps(children, registry, os, keys[..n]);
      var children', os' := children + Ids(os.next, n), Create(os, keys[..n]);
      NewKeeps(children', registry, os', keys[n], children' + [os'.next]);
      assert children' + [os.next + n] == children + Ids(os.next, n + 1);
    }
  }

  /** The created processes have the given targets, and the others are as before. */
  lemma {:induction false} CreateAdds(os: Os, keys: seq<Key>, p: Proc)
    requires os.Valid()
    ensures Create(os, keys).next == os.next + |keys|
    ensures p in os.status ==> p in Create(os, keys).status && Create(os, keys).status[p] == os.status[p] &&
                               p in Create(os, keys).target && Create(os, keys).target[p] == os.target[p]
    ensures os.next <= p < os.next + |keys| ==>
              p in Create(os, keys).status && Create(os, keys).status[p] == Unstarted &&
              p in Create(os, keys).target && Create(os, keys).target[p] == keys[p - os.next]
    decreases |keys|
  {
    if keys != [] {
      CreateAdds(os, keys[..|keys| - 1], p);
    }
  }

  lemma CreatedUnstarted(children: seq<Proc>, os: Os, keys: seq<Key>)
    requires os.Valid() && forall p :: p in children ==> p in os.status && os.status[p] == Unstarted
    ensures forall p :: p in children + Ids(os.next, |keys|) ==>
                          p in Create(os, keys).status && Create(os, keys).status[p] == Unstarted
  {
    forall p | p in children + Ids(os.next, |keys|)
      ensures p in Create(os, keys).status && Create(os, keys).status[p] == Unstarted
    {
      CreateAdds(os, keys, p);
    }
  }

  lemma NewUnique(children: seq<Proc>, os: Os, k: Key)
    requires os.Valid() && forall p :: p in children ==> p in os.status
    ensures Targets(children + [os.next], os.New(k).target) == Targets(children, os.target) + {k}
    ensures Unique(children, os.target) && k !in Targets(children, os.target) ==>
              Unique(children + [os.next], os.New(k).target)
  {
    var target' := os.New(k).target;
    forall p | p in children
      ensures p in target' && target'[p] == os.target[p] && p != os.next
    {
    }
    assert os.next in children + [os.next] && target'[os.next] == k;
    forall p | p in children
      ensures p in children + [os.next]
    {
    }
  }

  lemma NewUntracked(children: seq<Proc>, registry: map<Proc, Key>, os: Os, k: Key)
    requires Consistent(children, registry, os)
    ensures Targets(children, os.New(k).target) == Targets(children, os.target)
    ensures Unique(children, os.target) ==> Unique(children, os.New(k).target)
    ensures forall p <- children :: p in os.status && p in os.target && p != os.next
    ensures os.next !in registry && os.next !in os.status
  {
  }

  /** Workers created for new, distinct keys stay unique. */
  lemma {:induction false} CreateUnique(children: seq<Proc>, registry: map<Proc, Key>, os: Os, keys: seq<Key>)
    requires Consistent(children, registry, os) && Unique(children, os.target)
    requires Distinct(keys) && forall k <- keys :: k !in Targets(children, os.target)
    ensures Unique(children + Ids(os.next, |keys|), Create(os, keys).target)
    ensures Targets(children + Ids(os.next, |keys|), Create(os, keys).target) ==
              Targets(children, os.target) + (set k | k in keys)
    decreases |keys|
  {
    var n := |keys| - 1;
    if n < 0 {
      assert children + Ids(os.next, 0) == children;
    } else {
      assert keys == keys[..n] + [keys[n]];
      CreateUnique(children, registry, os, keys[..n]);
      CreateKeeps(children, registry, os, keys[..n]);
      NewUnique(children + Ids(os.next, n), Create(os, keys[..n]), keys[n]);
      assert children + Ids(os.next, n) + [os.next + n] == children + Ids(os.next, n + 1);
    }
  }

  /** Uniquely targeted children are single, and only a tracked key is live. */
  lemma UniqueMeans(children: seq<Proc>, registry: map<Proc, Key>, os: Os)
    requires Consistent(children, registry, os) && Tracked(children, os) && Unique(children, os.target)
    ensures Single(children, os)
    ensures StartedKeys(children, os) <= Targets(children, os.target)
    ensures LiveKeys(os) <= Targets(children, os.target)
  {
  }

  lemma RegisterKeeps(children: seq<Proc>, registry: map<Proc, Key>, os: Os, p: Proc, k: Key)
    requires Consistent(children, registry, os) && p in os.target && os.target[p] == k
    ensures Consistent(children, registry[p := k], os)
  {
  }

  lemma StartKeeps(children: seq<Proc>, registry: map<Proc, Key>, os: Os, p: Proc, s: Status)
    requires Consistent(children, registry, os) && p in children && os.status[p] == Unstarted && s != Unstarted
    ensures Consistent(children, registry, os.Set(p, s))
    ensures Tracked(children, os) ==> Tracked(children, os.Set(p, s))
    ensures StartedKeys(children, os.Set(p, s)) == StartedKeys(children, os) + {os.target[p]}
    ensures Single(children, os) && os.target[p] !in StartedKeys(children, os) ==> Single(children, os.Set(p, s))
  {
    forall q
      ensures Runs(children, os.Set(p, s), q) <==> q == p || Runs(children, os, q)
    {
    }
    if Single(children, os) && os.target[p] !in StartedKeys(children, os) {
      forall q, r
        ensures !Clash(children, os.Set(p, s), q, r)
      {
        assert !Clash(children, os, q, r);
      }
    }
  }

  lemma StartLive(os: Os, p: Proc, s: Status)
    requires os.Valid() && p in os.status && os.status[p] == Unstarted
    ensures LiveKeys(os.Set(p, s)) == LiveKeys(os) + if s.Alive? then {os.target[p]} else {}
  {
    forall q
      ensures os.Set(p, s).Live(q) <==> os.Live(q) || (q == p && s.Alive?)
    {
    }
  }

  /** A worker that is started, does not stay up, and is dropped leaves no trace among the started children. */
  lemma StartDropKeeps(children: seq<Proc>, registry: map<Proc, Key>, os: Os, p: Proc, s: Status)
    requires Consistent(children, registry, os) && p in children && os.status[p] == Unstarted && !s.Alive?
    ensures Consistent(Without(children, p), registry - {p}, os.Set(p, s))
    ensures Tracked(children, os) ==> Tracked(Without(children, p), os.Set(p, s))
    ensures StartedKeys(Without(children, p), os.Set(p, s)) == StartedKeys(children, os)
    ensures Single(children, os) ==> Single(Without(children, p), os.Set(p, s))
  {
    WithoutMembers(children, p);
    forall q
      ensures Runs(Without(children, p), os.Set(p, s), q) <==> Runs(children, os, q)
      ensures os.Set(p, s).Live(q) <==> os.Live(q)
    {
    }
    SingleFollows(children, os, Without(children, p), os.Set(p, s));
  }

  lemma UniqueDrop(children: seq<Proc>, target: map<Proc, Key>, p: Proc)
    requires Distinct(children) && Unique(children, target) && p in children && p in target
    ensures Unique(Without(children, p), target)
    ensures Targets(Without(children, p), target) == Targets(children, target) - {target[p]}
  {
    WithoutMembers(children, p);
  }

  /** A process started before it is tracked, for a worker nothing tracked was created for. */
  lemma LaunchTracked(children: seq<Proc>, registry: map<Proc, Key>, os: Os, k: Key, s: Status)
    requires Consistent(children, registry, os) && Tracked(children, os) && Unique(children, os.target)
    requires k !in Targets(children, os.target) && s != Unstarted
    ensures k !in LiveKeys(os)
    ensures var os', children' := os.New(k).Set(os.next, s), children + [os.next];
            Consistent(children', registry[os.next := k], os') && Tracked(children', os') &&
            Unique(children', os'.target) && Targets(children', os'.target) == Targets(children, os.target) + {k} &&
            forall p :: p in children' && os'.status[p] == Unstarted ==>
                          p in children && os.status[p] == Unstarted && os'.target[p] == os.target[p]
  {
    UniqueMeans(children, registry, os);
    NewKeeps(children, registry, os, k, children + [os.next]);
    NewUnique(children, os, k);
    StartKeeps(children + [os.next], registry, os.New(k), os.next, s);
    RegisterKeeps(children + [os.next], registry, os.New(k).Set(os.next, s), os.next, k);
  }

  lemma DropKeeps(children: seq<Proc>, registry: map<Proc, Key>, os: Os, p: Proc)
    requires Consistent(children, registry, os) && !os.Live(p)
    ensures Consistent(Without(children, p), registry - {p}, os)
    ensures Tracked(children, os) ==> Tracked(Without(children, p), os)
    ensures StartedKeys(Without(children, p), os) <= StartedKeys(children, os)
    ensures !os.Started(p) ==> StartedKeys(Without(children, p), os) == StartedKeys(children, os)
    ensures Single(children, os) ==> Single(Without(children, p), os)
    ensures Single(children, os) && Runs(children, os, p) ==>
              StartedKeys(Without(children, p), os) == StartedKeys(children, os) - {os.target[p]}
  {
    WithoutMembers(children, p);
    forall q
      ensures Runs(Without(children, p), os, q) <==> Runs(children, os, q) && q != p
      ensures Single(children, os) && q != p && Runs(children, os, q) && Runs(children, os, p) ==>
                os.target[q] != os.target[p]
    {
      assert Single(children, os) ==> !Clash(children, os, q, p);
    }
    SingleFollows(children, os, Without(children, p), os);
  }

  /** A new process, already started but not yet tracked, disturbs no tracked one. */
  lemma LaunchKeeps(children: seq<Proc>, registry: map<Proc, Key>, os: Os, k: Key, s: Status)
    requires Consistent(children, registry, os)
    ensures Consistent(children, registry, os.New(k).Set(os.next, s)) && os.next !in children
    ensures StartedKeys(children, os.New(k).Set(os.next, s)) == StartedKeys(children, os)
    ensures Single(children, os) ==> Single(children, os.New(k).Set(os.next, s))
  {
    forall p
      ensures Runs(children, os.New(k).Set(os.next, s), p) <==> Runs(children, os, p)
    {
    }
    SingleFollows(children, os, children, os.New(k).Set(os.next, s));
  }

  /** A started process takes the place of a dead child with the same target. */
  lemma ReplaceKeeps(children: seq<Proc>, registry: map<Proc, Key>, os: Os, gone: Proc, p: Proc)
    requires Consistent(children, registry, os) && Runs(children, os, gone) && !os.Live(gone)
    requires os.Started(p) && p !in children && os.target[p] == os.target[gone]
    ensures Consistent(Without(children, gone) + [p], (registry - {gone})[p := os.target[p]], os)
    ensures Tracked(children + [p], os) ==> Tracked(Without(children, gone) + [p], os)
    ensures StartedKeys(Without(children, gone) + [p], os) == StartedKeys(children, os)
    ensures Single(children, os) ==> Single(Without(children, gone) + [p], os)
  {
    WithoutMembers(children, gone);
    var children' := Without(children, gone) + [p];
    forall q
      ensures Runs(children', os, q) <==> q == p || (Runs(children, os, q) && q != gone)
    {
    }
    forall k | k in StartedKeys(children, os)
      ensures k in StartedKeys(children', os)
    {
      var q :| q in children && Runs(children, os, q) && os.target[q] == k;
      assert Runs(children', os, p) && (q != gone ==> Runs(children', os, q));
    }
    if Single(children, os) {
      forall q, r
        ensures !Clash(children', os, q, r)
      {
        assert !Clash(children, os, q, r) && !Clash(children, os, gone, r) && !Clash(children, os, q, gone);
      }
    }
  }

  /** A dead child's key is free. */
  lemma DeadKeyIsFree(children: seq<Proc>, registry: map<Proc, Key>, os: Os, gone: Proc)
    requires Consistent(children, registry, os) && Tracked(children, os) && Single(children, os)
    requires Runs(children, os, gone) && !os.Live(gone)
    ensures os.target[gone] !in LiveKeys(os)
  {
    if os.target[gone] in LiveKeys(os) {
      var q :| q in os.status && os.Live(q) && q in os.target && os.target[q] == os.target[gone];
      assert Clash(children, os, q, gone);
    }
  }

  lemma DeathKeeps(children: seq<Proc>, registry: map<Proc, Key>, os: Os, p: Proc, code: int)
    requires Consistent(children, registry, os) && os.Live(p)
    ensures Consistent(children, registry, os.Set(p, Exited(code)))
    ensures Tracked(children, os) ==> Tracked(children, os.Set(p, Exited(code)))
    ensures StartedKeys(children, os.Set(p, Exited(code))) == StartedKeys(children, os)
    ensures LiveKeys(os.Set(p, Exited(code))) <= LiveKeys(os)
    ensures Single(children, os) ==> Single(children, os.Set(p, Exited(code)))
  {
    forall q
      ensures Runs(children, os.Set(p, Exited(code)), q) <==> Runs(children, os, q)
      ensures os.Set(p, Exited(code)).Live(q) ==> os.Live(q)
    {
    }
    SingleFollows(children, os, children, os.Set(p, Exited(code)));
  }

  lemma LiveAreStarted(children: seq<Proc>, registry: map<Proc, Key>, os: Os)
    requires Consistent(children, registry, os) && Tracked(children, os)
    ensures LiveKeys(os) <= StartedKeys(children, os)
  {
    forall k | k in LiveKeys(os)
      ensures k in StartedKeys(children, os)
    {
      var p :| p in os.status && os.Live(p) && p in os.target && os.target[p] == k;
      assert Runs(children, os, p);
    }
  }

  /** What the tracking lists promise about the real processes. */
  lemma ExclusiveMeans(children: seq<Proc>, registry: map<Proc, Key>, os: Os, pending: seq<Key>)
    requires Consistent(children, registry, os) && Tracked(children, os) && Single(children, os)
    requires forall k <- pending :: k !in StartedKeys(children, os)
    ensures forall p, q :: os.Live(p) && os.Live(q) && os.target[p] == os.target[q] ==> p == q
    ensures forall k <- pending :: k !in LiveKeys(os)
  {
    forall p, q | os.Live(p) && os.Live(q) && os.target[p] == os.target[q]
      ensures p == q
    {
      assert !Clash(children, os, p, q);
    }
    LiveAreStarted(children, registry, os);
  }
}
