/**
 A set whose values expire (`qBitrr/utils.py`, `ExpiringSet`).

 Entries are purged lazily, only when a call happens to look.  The reference is
 the eager set: the values whose last add is at most `age` old.  Every answer
 of the lazy set is the eager one, as long as the clock does not run backwards.
 */
module ExpiringSets {
  /** Values whose recorded time is at most `age` before `now`. */
  function Live<V(==)>(times: map<V, real>, age: real, now: real): set<V> {
    set v | v in times && now - times[v] <= age
  }

  /** `__update__`: drop what has expired. */
  function Purged<V(==)>(times: map<V, real>, age: real, now: real): map<V, real> {
    map v | v in times && now - times[v] <= age :: times[v]
  }

  /** `contains` drops at most the value it was asked about. */
  function PurgedOf<V(==)>(times: map<V, real>, age: real, now: real, value: V): map<V, real> {
    if value in times && now - times[value] > age then times - {value} else times
  }

  /** The stored times are those of the last adds, except for values that have already expired. */
  ghost predicate Refines<V>(stored: map<V, real>, lastAdd: map<V, real>, age: real, clock: real) {
    (forall v <- stored :: v in lastAdd && stored[v] == lastAdd[v]) &&
    (forall v <- lastAdd :: lastAdd[v] <= clock && (v !in stored ==> clock - lastAdd[v] > age))
  }

  /** Purging keeps the refinement and exposes exactly the live values. */
  lemma PurgeRefines<V>(stored: map<V, real>, lastAdd: map<V, real>, age: real, clock: real, now: real)
    requires Refines(stored, lastAdd, age, clock) && clock <= now
    ensures Refines(Purged(stored, age, now), lastAdd, age, now)
    ensures Refines(stored, lastAdd, age, now)
    ensures Purged(stored, age, now).Keys == Live(lastAdd, age, now)
  {
    forall v | v in Live(lastAdd, age, now)
      ensures v in stored
    {
      assert now - lastAdd[v] <= age;
    }
    assert forall v <- Purged(stored, age, now) :: v in stored && Purged(stored, age, now)[v] == stored[v];
  }

  class ExpiringSet<V(==)> {
    const age: real
    var container: map<V, real>
    ghost var lastAdd: map<V, real>
    ghost var clock: real

    ghost predicate Valid()
      reads this
    {
      age > 0.0 && Refines(container, lastAdd, age, clock)
    }

    /** The eager set at time `now`. */
    ghost function View(now: real): set<V>
      reads this
    {
      Live(lastAdd, age, now)
    }

    constructor (maxAgeSeconds: real, ghost now: real)
      requires maxAgeSeconds > 0.0
      ensures Valid() && age == maxAgeSeconds && container == map[] && lastAdd == map[] && clock == now
    {
      age := maxAgeSeconds;
      container := map[];
      lastAdd := map[];
      clock := now;
    }

    method Add(value: V, now: real)
      requires Valid() && clock <= now
      modifies this
      ensures Valid() && clock == now
      ensures lastAdd == old(lastAdd)[value := now]
      ensures container == old(container)[value := now]
      ensures View(now) == old(View(now)) + {value}
    {
      container := container[value := now];
      lastAdd := lastAdd[value := now];
      clock := now;
    }

    method Contains(value: V, now: real) returns (found: bool)
      requires Valid() && clock <= now
      modifies this
      ensures Valid() && clock == now && lastAdd == old(lastAdd)
      ensures container == PurgedOf(old(container), age, now, value)
      ensures found <==> value in View(now)
    {
      PurgeRefines(container, lastAdd, age, clock, now);
      clock := now;
      if value !in container {
        return false;
      }
      if now - container[value] > age {
        container := container - {value};
        return false;
      }
      return true;
    }

    method Update(now: real)
      requires Valid() && clock <= now
      modifies this
      ensures Valid() && clock == now && lastAdd == old(lastAdd)
      ensures container == Purged(old(container), age, now)
      ensures container.Keys == View(now)
    {
      PurgeRefines(container, lastAdd, age, clock, now);
      clock := now;
      var expired := set k | k in container && now - container[k] > age;
      var todo := expired;
      while todo != {}
        modifies `container
        invariant todo <= expired
        invariant container == old(container) - (expired - todo)
        decreases todo
      {
        var k :| k in todo;
        container := container - {k};
        todo := todo - {k};
      }
    }

    /** `__iter__` */
    method Elements(now: real) returns (values: set<V>)
      requires Valid() && clock <= now
      modifies this
      ensures Valid() && clock == now && lastAdd == old(lastAdd)
      ensures container == Purged(old(container), age, now)
      ensures values == View(now)
    {
      Update(now);
      values := container.Keys;
    }

    method Length(now: real) returns (n: nat)
      requires Valid() && clock <= now
      modifies this
      ensures Valid() && clock == now && lastAdd == old(lastAdd)
      ensures container == Purged(old(container), age, now)
      ensures n == |View(now)|
    {
      Update(now);
      n := |container.Keys|;
    }

    /** The copy answers as the original does, now and at any later time. */
    method Copy(now: real) returns (copy: ExpiringSet<V>)
      requires Valid() && clock <= now
      modifies this
      ensures Valid() && clock == now && lastAdd == old(lastAdd)
      ensures fresh(copy) && copy.Valid() && copy.age == age && copy.clock == now
      ensures forall t :: t >= now ==> copy.View(t) == View(t)
    {
      Update(now);
      copy := new ExpiringSet<V>(age, now);
      copy.container := container;
      copy.lastAdd := container;
      forall t | t >= now
        ensures Live(container, age, t) == Live(lastAdd, age, t)
      {
        PurgeRefines(container, lastAdd, age, now, t);
        assert Live(container, age, t) == Purged(container, age, t).Keys;
      }
    }

    /** `__eq__`: each side is purged with its own reading of the clock. */
    method Equals(other: ExpiringSet<V>, now: real, later: real) returns (same: bool)
      requires Valid() && other.Valid() && clock <= now && other.clock <= later && now <= later
      modifies this, other
      ensures Valid() && other.Valid() && lastAdd == old(lastAdd) && other.lastAdd == old(other.lastAdd)
      ensures same <==> this == other || View(now) == other.View(later)
    {
      if this == other {
        return true;
      }
      Update(now);
      other.Update(later);
      same := container.Keys == other.container.Keys;
    }
  }

  /** No value of the set expires between the two clock readings. */
  ghost predicate NoneExpires<V>(times: map<V, real>, age: real, now: real, later: real) {
    forall v <- times :: !(now - times[v] <= age < later - times[v])
  }

  lemma NoneExpiresMeans<V>(times: map<V, real>, age: real, now: real, later: real)
    requires now <= later
    ensures NoneExpires(times, age, now, later) <==> Live(times, age, now) == Live(times, age, later)
  {
    if !NoneExpires(times, age, now, later) {
      var v :| v in times && now - times[v] <= age < later - times[v];
      assert v in Live(times, age, now) && v !in Live(times, age, later);
    }
  }

  /**
   The verdict of `__eq__` is the one of an eager comparison at its first
   reading exactly when no right-hand value expires between the two readings,
   or the left-hand set differs from both states of the right-hand one.
   */
  lemma EqualityIsEagerIff<V>(left: map<V, real>, leftAge: real, right: map<V, real>, rightAge: real, now: real,
                              later: real)
    requires now <= later
    ensures var l, r, r' := Live(left, leftAge, now), Live(right, rightAge, now), Live(right, rightAge, later);
            (l == r' <==> l == r) <==> NoneExpires(right, rightAge, now, later) || (l != r && l != r')
  {
    NoneExpiresMeans(right, rightAge, now, later);
  }

  /** Two sets that agree at both readings compare equal exactly when none of their values expires in between. */
  lemma AgreeingSetsEqualIff<V>(left: map<V, real>, leftAge: real, right: map<V, real>, rightAge: real, now: real,
                                later: real)
    requires now <= later && Live(left, leftAge, now) == Live(right, rightAge, now)
    requires Live(left, leftAge, later) == Live(right, rightAge, later)
    ensures Live(left, leftAge, now) == Live(right, rightAge, later) <==> NoneExpires(left, leftAge, now, later)
  {
    NoneExpiresMeans(left, leftAge, now, later);
  }

  /** Two sets given the same value at the same time, compared with readings on either side of its expiry. */
  method TwinsCompareUnequal<V(==)>(value: V, age: real, added: real, now: real, later: real) returns (same: bool)
    requires age > 0.0 && added <= now && now - added <= age < later - added
    ensures !same
  {
    var left := new ExpiringSet<V>(age, added);
    var right := new ExpiringSet<V>(age, added);
    left.Add(value, added);
    right.Add(value, added);
    assert value in left.View(now) && value !in right.View(later);
    same := left.Equals(right, now, later);
  }

  // ------------------------------------------------------------- whole traces

  /** One of the sets a trace works on; a set not made yet is empty. */
  datatype Slot<V> = Slot(times: map<V, real>, age: real)

  type Sets<V> = map<nat, Slot<V>>

  function Of<V(==)>(sets: Sets<V>, i: nat): Slot<V> {
    if i in sets then sets[i] else Slot(map[], 1.0)
  }

  datatype Call<V> =
    | New(id: nat, age: real)
    | Add(id: nat, value: V)
    | Contains(id: nat, value: V)
    | Elements(id: nat)
    | Length(id: nat)
    | Copy(id: nat, copy: nat)
    | Equals(id: nat, other: nat, later: real) // the right-hand side reads the clock at `later`

  datatype Answer<V> = Done | Truth(b: bool) | Members(values: set<V>) | Size(n: nat)

  datatype Timed<V> = Timed(call: Call<V>, now: real)

  /** The lazily purged sets, and the answers read off them. */
  function LazySets<V(==)>(sets: Sets<V>, timed: Timed<V>): Sets<V> {
    var i, s, now := timed.call.id, Of(sets, timed.call.id), timed.now;
    match timed.call
    case New(_, age) => sets[i := Slot(map[], age)]
    case Add(_, v) => sets[i := s.(times := s.times[v := now])]
    case Contains(_, v) => sets[i := s.(times := PurgedOf(s.times, s.age, now, v))]
    case Elements(_) => sets[i := s.(times := Purged(s.times, s.age, now))]
    case Length(_) => sets[i := s.(times := Purged(s.times, s.age, now))]
    case Copy(_, j) =>
      var purged := s.(times := Purged(s.times, s.age, now));
      sets[i := purged][j := purged]
    case Equals(_, j, later) =>
      if i == j then sets
      else
        var t := Of(sets, j);
        sets[i := s.(times := Purged(s.times, s.age, now))][j := t.(times := Purged(t.times, t.age, later))]
  }

  function LazyAnswer<V(==)>(sets: Sets<V>, timed: Timed<V>): Answer<V> {
    var after := LazySets(sets, timed);
    var i := timed.call.id;
    match timed.call
    case New(_, _) => Done
    case Add(_, _) => Done
    case Contains(_, v) => Truth(v in Of(after, i).times)
    case Elements(_) => Members(Of(after, i).times.Keys)
    case Length(_) => Size(|Of(after, i).times.Keys|)
    case Copy(_, _) => Done
    case Equals(_, j, _) => Truth(i == j || Of(after, i).times.Keys == Of(after, j).times.Keys)
  }

  /** The eager sets, which never forget an add, and their answers. */
  function EagerSets<V(==)>(sets: Sets<V>, timed: Timed<V>): Sets<V> {
    var i, s := timed.call.id, Of(sets, timed.call.id);
    match timed.call
    case New(_, age) => sets[i := Slot(map[], age)]
    case Add(_, v) => sets[i := s.(times := s.times[v := timed.now])]
    case Copy(_, j) => sets[j := s]
    case _ => sets
  }

  function EagerAnswer<V(==)>(sets: Sets<V>, timed: Timed<V>): Answer<V> {
    var i, live := timed.call.id, Live(Of(sets, timed.call.id).times, Of(sets, timed.call.id).age, timed.now);
    match timed.call
    case New(_, _) => Done
    case Add(_, _) => Done
    case Contains(_, v) => Truth(v in live)
    case Elements(_) => Members(live)
    case Length(_) => Size(|live|)
    case Copy(_, _) => Done
    case Equals(_, j, later) => Truth(i == j || live == Live(Of(sets, j).times, Of(sets, j).age, later))
  }

  function LazyAnswers<V(==)>(sets: Sets<V>, calls: seq<Timed<V>>): seq<Answer<V>>
    decreases |calls|
  {
    if calls == [] then [] else [LazyAnswer(sets, calls[0])] + LazyAnswers(LazySets(sets, calls[0]), calls[1..])
  }

  function EagerAnswers<V(==)>(sets: Sets<V>, calls: seq<Timed<V>>): seq<Answer<V>>
    decreases |calls|
  {
    if calls == [] then [] else [EagerAnswer(sets, calls[0])] + EagerAnswers(EagerSets(sets, calls[0]), calls[1..])
  }

  /** When a call has made its last reading of the clock. */
  function Finished<V>(timed: Timed<V>): real {
    if timed.call.Equals? then timed.call.later else timed.now
  }

  /** The clock does not run backwards, and ages are positive. */
  ghost predicate ClockFrom<V>(clock: real, calls: seq<Timed<V>>)
    decreases |calls|
  {
    calls != [] ==>
      clock <= calls[0].now <= Finished(calls[0]) && (calls[0].call.New? ==> calls[0].call.age > 0.0) &&
      ClockFrom(Finished(calls[0]), calls[1..])
  }

  ghost predicate AllRefine<V>(lazy: Sets<V>, eager: Sets<V>, clock: real) {
    forall i :: RefinesAt(lazy, eager, i, clock)
  }

  ghost predicate RefinesAt<V>(lazy: Sets<V>, eager: Sets<V>, i: nat, clock: real) {
    Of(lazy, i).age == Of(eager, i).age && Of(lazy, i).age > 0.0 &&
    Refines(Of(lazy, i).times, Of(eager, i).times, Of(eager, i).age, clock)
  }

  lemma StepRefines<V>(lazy: Sets<V>, eager: Sets<V>, clock: real, timed: Timed<V>)
    requires AllRefine(lazy, eager, clock) && clock <= timed.now <= Finished(timed)
    requires timed.call.New? ==> timed.call.age > 0.0
    ensures LazyAnswer(lazy, timed) == EagerAnswer(eager, timed)
    ensures AllRefine(LazySets(lazy, timed), EagerSets(eager, timed), Finished(timed))
  {
    hide Refines, Live, Purged, PurgedOf;
    forall i
      ensures RefinesAt(LazySets(lazy, timed), EagerSets(eager, timed), i, Finished(timed))
    {
      assert RefinesAt(lazy, eager, i, clock) && RefinesAt(lazy, eager, timed.call.id, clock);
      SlotRefines(Of(lazy, i), Of(eager, i), clock, timed);
      SlotRefines(Of(lazy, timed.call.id), Of(eager, timed.call.id), clock, timed);
    }
    assert RefinesAt(lazy, eager, timed.call.id, clock);
    SlotRefines(Of(lazy, timed.call.id), Of(eager, timed.call.id), clock, timed);
    if timed.call.Equals? {
      assert RefinesAt(lazy, eager, timed.call.other, clock);
      SlotRefines(Of(lazy, timed.call.other), Of(eager, timed.call.other), clock, timed);
    }
  }

  /** What any call can do to one set. */
  lemma SlotRefines<V>(l: Slot<V>, e: Slot<V>, clock: real, timed: Timed<V>)
    requires Refines(l.times, e.times, e.age, clock) && l.age == e.age > 0.0 && clock <= timed.now <= Finished(timed)
    ensures var now, end := timed.now, Finished(timed);
            Refines(l.times, e.times, e.age, end) &&
            (timed.call.New? ==> Refines<V>(map[], map[], timed.call.age, end)) &&
            Refines(Purged(l.times, l.age, now), e.times, e.age, end) &&
            Refines(Purged(l.times, l.age, end), e.times, e.age, end) &&
            Purged(l.times, l.age, now).Keys == Live(e.times, e.age, now) &&
            Purged(l.times, l.age, end).Keys == Live(e.times, e.age, end)
    ensures timed.call.Add? ==> var v := timed.call.value;
              Refines(l.times[v := timed.now], e.times[v := timed.now], e.age, Finished(timed))
    ensures timed.call.Contains? ==>
              var v, kept := timed.call.value, PurgedOf(l.times, l.age, timed.now, timed.call.value);
              Refines(kept, e.times, e.age, Finished(timed)) && (v in kept <==> v in Live(e.times, e.age, timed.now))
  {
    PurgeRefines(l.times, e.times, e.age, clock, timed.now);
    PurgeRefines(l.times, e.times, e.age, clock, Finished(timed));
    PurgeRefines(Purged(l.times, e.age, timed.now), e.times, e.age, timed.now, Finished(timed));
  }

  lemma {:induction false} LazyRefinesEager<V>(lazy: Sets<V>, eager: Sets<V>, clock: real, calls: seq<Timed<V>>)
    requires AllRefine(lazy, eager, clock) && ClockFrom(clock, calls)
    ensures LazyAnswers(lazy, calls) == EagerAnswers(eager, calls)
    decreases |calls|
  {
    hide LazySets, EagerSets, LazyAnswer, EagerAnswer, AllRefine;
    if calls != [] {
      StepRefines(lazy, eager, clock, calls[0]);
      LazyRefinesEager(LazySets(lazy, calls[0]), EagerSets(eager, calls[0]), Finished(calls[0]), calls[1..]);
    }
  }

  /**
   Over any number of sets, made, filled, queried, copied and compared in any
   order with a non-decreasing clock, lazy and eager purging answer alike.
   */
  lemma LazyIsEager<V>(clock: real, calls: seq<Timed<V>>)
    requires ClockFrom(clock, calls)
    ensures LazyAnswers(map[], calls) == EagerAnswers(map[], calls)
  {
    LazyRefinesEager(map[], map[], clock, calls);
  }
}
