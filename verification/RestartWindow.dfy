/**
 The sliding-window restart limit (`_should_restart_process`): old timestamps
 are pruned, and still no window of the configured length ever holds more than
 the permitted number of restarts.
 */
module RestartWindow {
  import opened Sequences

  function Inside(now: real, window: real): real -> bool {
    t => now - t < window
  }

  /** Timestamps still inside the window at `now`. */
  function Pruned(times: seq<real>, now: real, window: real): seq<real> {
    Filter(Inside(now, window), times)
  }

  ghost predicate NonDecreasing(times: seq<real>) {
    forall i, j :: 0 <= i < j < |times| ==> times[i] <= times[j]
  }

  /** Number of timestamps in `[from, from + window)`. */
  function CountIn(times: seq<real>, from: real, window: real): nat {
    if |times| == 0 then 0
    else CountIn(times[..|times| - 1], from, window) +
         if from <= times[|times| - 1] < from + window then 1 else 0
  }

  lemma {:induction false} CountInMeans(times: seq<real>, from: real, window: real)
    ensures CountIn(times, from, window) == |set i: nat | i < |times| && from <= times[i] < from + window|
  {
    var all := set i: nat | i < |times| && from <= times[i] < from + window;
    if |times| > 0 {
      var n := |times| - 1;
      var before := times[..n];
      CountInMeans(before, from, window);
      var some := set i: nat | i < |before| && from <= before[i] < from + window;
      assert all == some + if from <= times[n] < from + window then {n} else {};
    } else {
      assert all == {};
    }
  }

  ghost predicate WithinLimit(history: seq<real>, window: real, limit: int) {
    forall from: real :: CountIn(history, from, window) <= if limit > 0 then limit else 0
  }

  /** The kept timestamps are a suffix of the full history, and what was dropped is a window old by now. */
  ghost predicate Keeps(kept: seq<real>, history: seq<real>, clock: real, window: real) {
    NonDecreasing(history) && (forall t <- history :: t <= clock) && |kept| <= |history| &&
    kept == history[|history| - |kept|..] &&
    forall i :: 0 <= i < |history| - |kept| ==> clock - history[i] >= window
  }

  /** The positions from `k` on whose timestamp is less than a window old. */
  function RecentFrom(history: seq<real>, k: nat, now: real, window: real): set<nat> {
    set i: nat | k <= i < |history| && now - history[i] < window
  }

  function RecentCount(history: seq<real>, now: real, window: real): nat {
    |RecentFrom(history, 0, now, window)|
  }

  lemma {:induction false} AllRecent(history: seq<real>, k: nat, now: real, window: real)
    requires k <= |history| && forall i :: k <= i < |history| ==> now - history[i] < window
    ensures |RecentFrom(history, k, now, window)| == |history| - k
    decreases |history| - k
  {
    if k == |history| {
      assert RecentFrom(history, k, now, window) == {};
    } else {
      AllRecent(history, k + 1, now, window);
      assert RecentFrom(history, k, now, window) == RecentFrom(history, k + 1, now, window) + {k};
    }
  }

  /** Pruning a non-decreasing list drops a prefix: exactly the timestamps that are a window old. */
  lemma {:induction false} PrunedIsSuffix(times: seq<real>, now: real, window: real)
    requires NonDecreasing(times)
    ensures var p := Pruned(times, now, window);
            |p| <= |times| && p == times[|times| - |p|..] &&
            (forall i :: 0 <= i < |times| - |p| ==> now - times[i] >= window) && forall t <- p :: now - t < window
  {
    if |times| > 0 {
      var inside, rest := Inside(now, window), times[1..];
      if inside(times[0]) {
        FilterAll(inside, times);
        assert times == times[0..];
      } else {
        PrunedIsSuffix(rest, now, window);
        var p := Pruned(rest, now, window);
        assert Pruned(times, now, window) == p;
        assert p == rest[|rest| - |p|..] == times[|times| - |p|..];
        forall i | 0 <= i < |times| - |p|
          ensures now - times[i] >= window
        {
          assert i > 0 ==> rest[i - 1] == times[i];
        }
      }
    }
  }

  lemma PruneKeeps(kept: seq<real>, history: seq<real>, clock: real, now: real, window: real)
    requires Keeps(kept, history, clock, window) && clock <= now
    ensures Keeps(Pruned(kept, now, window), history, now, window)
  {
    var d := |history| - |kept|;
    assert NonDecreasing(kept);
    PrunedIsSuffix(kept, now, window);
    var p := Pruned(kept, now, window);
    assert p == history[|history| - |p|..];
    forall i | 0 <= i < |history| - |p|
      ensures now - history[i] >= window
    {
      assert i >= d ==> kept[i - d] == history[i];
    }
  }

  /** So what is kept is as many timestamps as the whole history has within the window. */
  lemma PruneCounts(kept: seq<real>, history: seq<real>, clock: real, now: real, window: real)
    requires Keeps(kept, history, clock, window) && clock <= now
    ensures |Pruned(kept, now, window)| == RecentCount(history, now, window)
  {
    PruneKeeps(kept, history, clock, now, window);
    assert NonDecreasing(kept);
    PrunedIsSuffix(kept, now, window);
    var p := Pruned(kept, now, window);
    var d := |history| - |p|;
    forall i | d <= i < |history|
      ensures now - history[i] < window
    {
      assert p[i - d] in p;
    }
    AllRecent(history, d, now, window);
    assert RecentFrom(history, 0, now, window) == RecentFrom(history, d, now, window);
  }

  /** Later there are no more of them. */
  lemma RecentShrinks(history: seq<real>, now: real, later: real, window: real)
    requires now <= later
    ensures RecentCount(history, later, window) <= RecentCount(history, now, window)
  {
    SubsetSize(RecentFrom(history, 0, later, window), RecentFrom(history, 0, now, window));
  }

  lemma {:induction false} SubsetSize(a: set<nat>, b: set<nat>)
    requires a <= b
    ensures |a| <= |b|
  {
    if a != {} {
      var x :| x in a;
      SubsetSize(a - {x}, b - {x});
    }
  }

  lemma EmptyHistory(clock: real, window: real, limit: int)
    ensures Keeps([], [], clock, window) && WithinLimit([], window, limit)
  {
  }

  /** A window that starts after the dropped prefix counts at most the kept suffix. */
  lemma {:induction false} CountSkipsOld(history: seq<real>, d: nat, from: real, window: real)
    requires d <= |history| && forall i :: 0 <= i < d ==> history[i] < from
    ensures CountIn(history, from, window) <= |history| - d
  {
    if |history| > 0 {
      var n := |history| - 1;
      if d <= n {
        CountSkipsOld(history[..n], d, from, window);
      } else {
        CountSkipsOld(history[..n], n, from, window);
      }
    }
  }

  /** A restart while fewer than `limit` timestamps are kept stays within the limit. */
  lemma RestartStaysWithin(kept: seq<real>, history: seq<real>, clock: real, now: real, window: real, limit: int)
    requires Keeps(kept, history, clock, window) && clock <= now && |kept| < limit
    requires WithinLimit(history, window, limit)
    ensures WithinLimit(history + [now], window, limit)
    ensures Keeps(kept + [now], history + [now], now, window)
  {
    var h := history + [now];
    forall from: real
      ensures CountIn(h, from, window) <= limit
    {
      assert h[..|h| - 1] == history;
      if from <= now < from + window {
        var d := |history| - |kept|;
        forall i | 0 <= i < d
          ensures h[i] < from
        {
          assert clock - history[i] >= window;
        }
        CountSkipsOld(h, d, from, window);
      } else {
        assert CountIn(history, from, window) <= limit;
      }
    }
    forall i, j | 0 <= i < j < |h|
      ensures h[i] <= h[j]
    {
      assert history[i] in history;
    }
    forall i | 0 <= i < |h| - |kept + [now]|
      ensures now - h[i] >= window
    {
      assert h[i] == history[i];
    }
    assert h[|h| - |kept + [now]|..] == kept + [now];
  }

  lemma LaterKeeps(kept: seq<real>, history: seq<real>, clock: real, now: real, window: real)
    requires Keeps(kept, history, clock, window) && clock <= now
    ensures Keeps(kept, history, now, window)
  {
  }
}
