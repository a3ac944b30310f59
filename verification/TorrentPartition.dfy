/** The scans of all Arr workers partition the torrents that have an Arr owner. */
module TorrentPartition {
  import opened Wrappers
  import opened Sequences
  import opened CategoryPaths
  import opened CategoryOwnership
  import opened ArrManagers

  /** The torrents the given workers take from one instance, counted with repetition. */
  function TakenByAll(r: Registry, keys: seq<string>, inst: Instance): multiset<Torrent>
    requires forall i :: 0 <= i < |keys| ==> r.IsArr(keys[i])
  {
    if |keys| == 0 then multiset{}
    else
      assert r.IsArr(keys[0]);
      multiset(Taken(r, r.managed[keys[0]], inst)) + TakenByAll(r, keys[1..], inst)
  }

  /** The torrents of an instance that resolve to an Arr owner. */
  function Owned(r: Registry, inst: Instance): multiset<Torrent> {
    multiset(Filter((t: Torrent) => OwnedByArr(r, inst.section, t), inst.torrents))
  }

  function Once(t: Torrent, b: bool): multiset<Torrent> {
    if b then multiset{t} else multiset{}
  }

  lemma FilterOnce(p: Torrent -> bool, t: Torrent, rest: seq<Torrent>)
    ensures multiset(Filter(p, [t] + rest)) == Once(t, p(t)) + multiset(Filter(p, rest))
  {
    assert ([t] + rest)[1..] == rest;
  }

  /** One more torrent: its owner, if among the workers, takes it once, and nobody else does. */
  lemma TakenStep(r: Registry, key: string, inst: Instance)
    requires r.Valid() && NormalRoots(r) && r.IsArr(key) && inst.section != "" && inst.Live() && inst.torrents != []
    requires var t := inst.torrents[0]; t.category.Some? ==> Normal(t.category.value)
    ensures var t := inst.torrents[0];
            multiset(Taken(r, r.managed[key], inst)) ==
            Once(t, t.category.Some? && r.Owner(t.category.value, Some(inst.section)) == Some(key)) +
            multiset(Taken(r, r.managed[key], inst.(torrents := inst.torrents[1..])))
  {
    hide Takes, Filter, NormalizeCategory, Registry.Owner;
    var t, worker := inst.torrents[0], r.managed[key];
    FilterOnce((x: Torrent) => Takes(r, worker, inst.section, x), t, inst.torrents[1..]);
    assert inst.torrents == [t] + inst.torrents[1..];
    TakesIff(r, key, inst.section, t);
    if t.category.Some? {
      NormalTorrentNotMissed(r, key, inst.section, t);
    }
  }

  lemma {:induction false} TakenByAllStep(r: Registry, keys: seq<string>, inst: Instance)
    requires forall i :: 0 <= i < |keys| ==> r.IsArr(keys[i])
    requires r.Valid() && NormalRoots(r) && inst.section != "" && inst.Live() && inst.torrents != []
    requires var t := inst.torrents[0]; t.category.Some? ==> Normal(t.category.value)
    requires Distinct(keys)
    ensures var t := inst.torrents[0];
            TakenByAll(r, keys, inst) ==
            Once(t, t.category.Some? && IsOneOf(r.Owner(t.category.value, Some(inst.section)), keys)) +
            TakenByAll(r, keys, inst.(torrents := inst.torrents[1..]))
  {
    hide Taken, NormalizeCategory, Registry.Owner, Normal, Once;
    if keys != [] {
      var t := inst.torrents[0];
      TakenStep(r, keys[0], inst);
      TakenByAllStep(r, keys[1..], inst);
      if t.category.Some? {
        OneOfStep(r.Owner(t.category.value, Some(inst.section)), keys);
        OnceSum(t, r.Owner(t.category.value, Some(inst.section)) == Some(keys[0]),
                IsOneOf(r.Owner(t.category.value, Some(inst.section)), keys[1..]));
      } else {
        OnceSum(t, false, false);
      }
    } else {
      OnceSum(inst.torrents[0], false, false);
    }
  }

  predicate IsOneOf(owner: Option<string>, keys: seq<string>) {
    owner.Some? && owner.value in keys
  }

  lemma OneOfStep(owner: Option<string>, keys: seq<string>)
    requires keys != [] && Distinct(keys)
    ensures IsOneOf(owner, keys) <==> owner == Some(keys[0]) || IsOneOf(owner, keys[1..])
    ensures !(owner == Some(keys[0]) && IsOneOf(owner, keys[1..]))
  {
  }

  lemma OnceSum(t: Torrent, a: bool, b: bool)
    requires !(a && b)
    ensures Once(t, a) + Once(t, b) == Once(t, a || b) && Once(t, false) == multiset{}
  {
  }

  ghost predicate ListsArrs(r: Registry, keys: seq<string>) {
    Distinct(keys) && (forall i :: 0 <= i < |keys| ==> r.IsArr(keys[i])) && forall k :: r.IsArr(k) ==> k in keys
  }

  /**
   On a live instance, over torrents whose category is in normal form, what the
   Arr workers take adds up, with repetition, to exactly the torrents that
   resolve to an Arr owner: none is missed and none taken twice.
   */
  lemma {:induction false} ScansPartitionOwnedTorrents(r: Registry, keys: seq<string>, inst: Instance)
    requires r.Valid() && NormalRoots(r) && inst.section != "" && inst.Live()
    requires ListsArrs(r, keys)
    requires forall t <- inst.torrents :: t.category.Some? ==> Normal(t.category.value)
    ensures TakenByAll(r, keys, inst) == Owned(r, inst)
    decreases |inst.torrents|
  {
    hide NormalizeCategory, Registry.Owner, Normal, Once, TakenByAll, Filter;
    if inst.torrents == [] {
      NothingToTake(r, keys, inst);
    } else {
      var t, rest := inst.torrents[0], inst.(torrents := inst.torrents[1..]);
      var owned := (x: Torrent) => OwnedByArr(r, inst.section, x);
      assert inst.torrents == [t] + rest.torrents;
      ScansPartitionOwnedTorrents(r, keys, rest);
      TakenByAllStep(r, keys, inst);
      FilterOnce(owned, t, rest.torrents);
    }
  }

  lemma {:induction false} NothingToTake(r: Registry, keys: seq<string>, inst: Instance)
    requires forall i :: 0 <= i < |keys| ==> r.IsArr(keys[i])
    requires inst.torrents == []
    ensures TakenByAll(r, keys, inst) == multiset{} == Owned(r, inst)
  {
    if keys != [] {
      NothingToTake(r, keys[1..], inst);
    }
  }

  /** On every live instance with torrents in normal categories, the scans partition the owned torrents. */
  ghost predicate ScansPartition(r: Registry) {
    forall keys: seq<string>, inst: Instance ::
      ListsArrs(r, keys) && inst.section != "" && inst.Live() &&
      (forall t <- inst.torrents :: t.category.Some? ==> Normal(t.category.value)) ==>
        TakenByAll(r, keys, inst) == Owned(r, inst)
  }

  /** Every successful build from Arr categories that are not blank leads to a partition. */
  method BuildPartitions(manager: ArrManager, builds: set<string>) returns (ok: bool)
    requires manager.managedObjects == map[] && manager.arrCategories == {} && HasQbitSection(manager.config)
    requires forall s :: IsBuilt(manager.config, builds, s) ==>
               var categories := manager.config.category;
               NormalizeCategory(if s in categories then categories[s] else s) != ""
    modifies manager
    ensures ok <==> ArrCategories(manager.config, builds) !! QbitCategories(manager.config)
    ensures ok ==> ScansPartition(manager.ToRegistry())
  {
    hide IsBuilt, ArrCategory, ArrCategories, QbitCategories, HasQbitSection, Normal, TakenByAll, Owned, NormalRoots,
         Registry.Valid;
    ok := manager.BuildArrInstances(builds);
    if ok {
      ghost var r := manager.ToRegistry();
      RootsAreNormal(manager.config, builds, r);
      forall keys: seq<string>, inst: Instance |
        ListsArrs(r, keys) && inst.section != "" && inst.Live() &&
        (forall t <- inst.torrents :: t.category.Some? ==> Normal(t.category.value))
        ensures TakenByAll(r, keys, inst) == Owned(r, inst)
      {
        ScansPartitionOwnedTorrents(r, keys, inst);
      }
    }
  }
}
