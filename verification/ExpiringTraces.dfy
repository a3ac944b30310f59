/** What the answers of a timed set say about the calls before them. */
module ExpiringTraces {
  import opened ExpiringSets

  function EagerAll<V(==)>(sets: Sets<V>, calls: seq<Timed<V>>): Sets<V>
    decreases |calls|
  {
    if calls == [] then sets else EagerAll(EagerSets(sets, calls[0]), calls[1..])
  }

  lemma {:induction false} AnswersAt<V>(sets: Sets<V>, calls: seq<Timed<V>>, k: nat)
    requires k < |calls|
    ensures |EagerAnswers(sets, calls)| == |calls|
    ensures EagerAnswers(sets, calls)[k] == EagerAnswer(EagerAll(sets, calls[..k]), calls[k])
    ensures EagerAll(sets, calls[..k + 1]) == EagerSets(EagerAll(sets, calls[..k]), calls[k])
    decreases |calls|
  {
    hide EagerSets, EagerAnswer;
    var next, rest := EagerSets(sets, calls[0]), calls[1..];
    AnswersLength(next, rest);
    if k == 0 {
      assert calls[..1] == [calls[0]] && [calls[0]][1..] == [];
    } else {
      AnswersAt(next, rest, k - 1);
      assert calls[..k][1..] == rest[..k - 1] && calls[..k + 1][1..] == rest[..k];
    }
  }

  lemma {:induction false} AnswersLength<V>(sets: Sets<V>, calls: seq<Timed<V>>)
    ensures |EagerAnswers(sets, calls)| == |calls|
    decreases |calls|
  {
    if calls != [] {
      AnswersLength(EagerSets(sets, calls[0]), calls[1..]);
    }
  }

  lemma {:induction false} ClockRuns<V>(clock: real, calls: seq<Timed<V>>, j: nat, k: nat)
    requires ClockFrom(clock, calls) && j <= k < |calls|
    ensures clock <= calls[j].now <= calls[k].now
    decreases |calls|
  {
    if k > 0 {
      ClockRuns(Finished(calls[0]), calls[1..], if j > 0 then j - 1 else k - 1, k - 1);
    }
  }

  /** Set `i` is made at call `m` with this age, and neither made anew nor overwritten by a copy before call `k`. */
  ghost predicate LivesFrom<V>(calls: seq<Timed<V>>, i: nat, age: real, m: nat, k: nat) {
    m < k <= |calls| && calls[m].call == New(i, age) &&
    forall j :: m < j < k ==> !(calls[j].call.New? && calls[j].call.id == i) &&
                              !(calls[j].call.Copy? && calls[j].call.copy == i)
  }

  predicate AddsAt<V(==)>(calls: seq<Timed<V>>, i: nat, value: V, m: nat, k: nat, j: nat) {
    m < j < k <= |calls| && calls[j].call == Add(i, value)
  }

  /** The eager set records the last add of each value since it was made. */
  ghost predicate Records<V>(calls: seq<Timed<V>>, i: nat, age: real, value: V, m: nat, k: nat)
    requires k <= |calls|
  {
    var s := Of(EagerAll(map[], calls[..k]), i);
    s.age == age &&
    (value in s.times ==> exists j: nat :: AddsAt(calls, i, value, m, k, j) && calls[j].now == s.times[value]) &&
    forall j: nat :: AddsAt(calls, i, value, m, k, j) ==> value in s.times && calls[j].now <= s.times[value]
  }

  lemma {:induction false} SetRecords<V>(calls: seq<Timed<V>>, clock: real, i: nat, age: real, value: V, m: nat, k: nat)
    requires ClockFrom(clock, calls) && LivesFrom(calls, i, age, m, k)
    ensures Records(calls, i, age, value, m, k)
  {
    AnswersAt(map[], calls, k - 1);
    if m < k - 1 {
      SetRecords(calls, clock, i, age, value, m, k - 1);
      var s, s' := Of(EagerAll(map[], calls[..k - 1]), i), Of(EagerAll(map[], calls[..k]), i);
      forall j: nat | AddsAt(calls, i, value, m, k, j)
        ensures value in s'.times && calls[j].now <= s'.times[value]
      {
        ClockRuns(clock, calls, j, k - 1);
        if j < k - 1 {
          assert AddsAt(calls, i, value, m, k - 1, j);
        }
      }
      if value in s'.times {
        if calls[k - 1].call == Add(i, value) {
          assert AddsAt(calls, i, value, m, k, k - 1);
        } else {
          var j: nat :| AddsAt(calls, i, value, m, k - 1, j) && calls[j].now == s.times[value];
          assert AddsAt(calls, i, value, m, k, j);
        }
      }
    }
  }

  /**
   In any trace with a non-decreasing clock, a lazily purged set says that it
   contains a value exactly if the value was added to it, since it was made,
   at most its age ago.
   */
  lemma ContainsMeansRecentAdd<V>(calls: seq<Timed<V>>, clock: real, i: nat, age: real, value: V, m: nat, k: nat)
    requires ClockFrom(clock, calls) && LivesFrom(calls, i, age, m, k) && k < |calls|
    requires calls[k].call == Contains(i, value)
    ensures |LazyAnswers(map[], calls)| == |calls|
    ensures LazyAnswers(map[], calls)[k] ==
              Truth(exists j :: m < j < k && calls[j].call == Add(i, value) && calls[k].now - calls[j].now <= age)
  {
    LazyIsEager(clock, calls);
    AnswersAt(map[], calls, k);
    SetRecords(calls, clock, i, age, value, m, k);
    var s, now := Of(EagerAll(map[], calls[..k]), i), calls[k].now;
    if j :| m < j < k && calls[j].call == Add(i, value) && now - calls[j].now <= age {
      assert AddsAt(calls, i, value, m, k, j);
    }
  }
}
