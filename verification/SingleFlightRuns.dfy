/**
 Whole requests of the single-flight fetch: what an undisturbed request does,
 step by step, and how every finished request of any run came to its end.
 */
module SingleFlightRuns {
  import opened Wrappers
  import opened SingleFlight

  // ------------------------------------------------------------- running one request

  lemma OneMore(s: State, step: Step, rest: seq<Step>)
    requires Enabled(s, step) && Possible(Apply(s, step), rest)
    ensures Possible(s, [step] + rest) && After(s, [step] + rest) == After(Apply(s, step), rest)
  {
    assert ([step] + rest)[1..] == rest;
  }

  lemma Last(s: State, step: Step)
    requires Enabled(s, step)
    ensures Possible(s, [step]) && After(s, [step]) == Apply(s, step)
  {
    OneMore(s, step, []);
    assert [step] + [] == [step];
  }

  /** The lock of this path is not taken. */
  predicate IsFree(s: State, path: string) {
    path in s.locks ==> s.locks[path] !in s.owners
  }

  /** From the queue for the guard to the queue for the lock. */
  function LockSteps(s: State, t: Tid, path: string): seq<Step> {
    if path in s.locks then [TakeGuard(t), FindLock(t), DropGuard(t)]
    else [TakeGuard(t), MissLock(t), CreateLock(t), DropGuard(t)]
  }

  /** The state with the request of a thread at this place. */
  function At(s: State, t: Tid, path: string, pc: Pc): State {
    s.(requests := s.requests[t := Request(path, pc)])
  }

  lemma GuardSteps(s: State, t: Tid, path: string)
    requires s.guard.None?
    ensures var asks, holds := At(s, t, path, AskGuard), At(s, t, path, Lookup).(guard := Some(t));
            Enabled(asks, TakeGuard(t)) && Apply(asks, TakeGuard(t)) == holds
    ensures forall lock: nat ::
              var has, asks := At(s, t, path, LeaveGuard(lock)).(guard := Some(t)), At(s, t, path, AskLock(lock));
              Enabled(has, DropGuard(t)) && Apply(has, DropGuard(t)) == asks
  {
    forall lock: nat
      ensures Apply(At(s, t, path, LeaveGuard(lock)).(guard := Some(t)), DropGuard(t)) == At(s, t, path, AskLock(lock))
    {
      var has := At(s, t, path, LeaveGuard(lock)).(guard := Some(t));
      assert has.requests[t := Request(path, AskLock(lock))] == s.requests[t := Request(path, AskLock(lock))];
    }
    var looks := Request(path, Lookup);
    assert s.requests[t := Request(path, AskGuard)][t := looks] == s.requests[t := looks];
  }

  lemma LookupSteps(s: State, t: Tid, path: string)
    ensures var looks := At(s, t, path, Lookup);
            if path in s.locks
            then Enabled(looks, FindLock(t)) && Apply(looks, FindLock(t)) == At(s, t, path, LeaveGuard(s.locks[path]))
            else Enabled(looks, MissLock(t)) && Apply(looks, MissLock(t)) == At(s, t, path, Create)
  {
    assert forall a, b :: s.requests[t := Request(path, a)][t := Request(path, b)] == s.requests[t := Request(path, b)];
  }

  lemma CreateSteps(s: State, t: Tid, path: string)
    ensures var creates := At(s, t, path, Create);
            var made := s.(locks := s.locks[path := s.nextLock], nextLock := s.nextLock + 1);
            Enabled(creates, CreateLock(t)) &&
            Apply(creates, CreateLock(t)) == At(made, t, path, LeaveGuard(s.nextLock))
  {
    var l := s.nextLock;
    assert s.requests[t := Request(path, Create)][t := Request(path, LeaveGuard(l))] ==
           s.requests[t := Request(path, LeaveGuard(l))];
  }

  /** A thread that finds the guard free gets its path's lock object, old or new, and nothing else changes. */
  lemma LockIsObtained(s: State, t: Tid, path: string)
    requires s.guard.None?
    ensures var asks := At(s, t, path, AskGuard);
            var steps := LockSteps(s, t, path);
            var lock := if path in s.locks then s.locks[path] else s.nextLock;
            Possible(asks, steps) &&
            After(asks, steps) == At(s, t, path, AskLock(lock)).(
              locks := s.locks[path := lock], nextLock := if path in s.locks then s.nextLock else s.nextLock + 1)
  {
    hide Enabled, Apply, State.Cached;
    var asks, held := At(s, t, path, AskGuard), s.(guard := Some(t));
    GuardSteps(s, t, path);
    LookupSteps(held, t, path);
    if path in s.locks {
      assert s.locks[path := s.locks[path]] == s.locks;
      OneMore(At(held, t, path, LeaveGuard(s.locks[path])), DropGuard(t), []);
      OneMore(At(held, t, path, Lookup), FindLock(t), [DropGuard(t)]);
      OneMore(asks, TakeGuard(t), [FindLock(t), DropGuard(t)]);
      assert [TakeGuard(t)] + [FindLock(t), DropGuard(t)] == LockSteps(s, t, path);
    } else {
      CreateSteps(held, t, path);
      var made := s.(locks := s.locks[path := s.nextLock], nextLock := s.nextLock + 1);
      GuardSteps(made, t, path);
      OneMore(At(made.(guard := Some(t)), t, path, LeaveGuard(s.nextLock)), DropGuard(t), []);
      OneMore(At(held, t, path, Create), CreateLock(t), [DropGuard(t)]);
      OneMore(At(held, t, path, Lookup), MissLock(t), [CreateLock(t), DropGuard(t)]);
      OneMore(asks, TakeGuard(t), [MissLock(t), CreateLock(t), DropGuard(t)]);
      assert [TakeGuard(t)] + [MissLock(t), CreateLock(t), DropGuard(t)] == LockSteps(s, t, path);
    }
  }

  /** A request that finds the file at its first check is served at once and touches nothing. */
  lemma CachedIsServed(s: State, t: Tid, path: string)
    requires t !in s.requests && path in s.files && s.files[path] > 0
    ensures var steps := [Begin(t, path), FirstHit(t)];
            Possible(s, steps) && After(s, steps) == s.(requests := s.requests[t := Request(path, Done)])
  {
    var s1 := Apply(s, Begin(t, path));
    OneMore(s1, FirstHit(t), []);
    OneMore(s, Begin(t, path), [FirstHit(t)]);
    assert [Begin(t, path)] + [FirstHit(t)] == [Begin(t, path), FirstHit(t)];
  }

  /** A lock that is taken by nobody else admits the thread, and is free again after it leaves. */
  lemma LockIsTaken(s: State, t: Tid)
    requires Inv(s) && t in s.requests && s.requests[t].pc.AskLock? && s.requests[t].pc.lock !in s.owners
    ensures Enabled(s, TakeLock(t))
    ensures var r := s.requests[t];
            Apply(s, TakeLock(t)) == s.(requests := s.requests[t := Request(r.path, SecondCheck(r.pc.lock))],
                                        owners := s.owners[r.pc.lock := t])
  {
  }

  /** What follows the second check, by what is in the cache and what the fetch and the write do. */
  datatype Ending = Found | NotFetched | NotOpened | NotWritten(written: nat) | Stored

  function WriteSteps(t: Tid, ending: Ending): seq<Step> {
    [if ending.NotWritten? then WriteFails(t, ending.written) else WriteSucceeds(t), DropLock(t)]
  }

  function StoreSteps(t: Tid, ending: Ending): seq<Step> {
    if ending.NotOpened? then [OpenFails(t), DropLock(t)] else [Truncate(t)] + WriteSteps(t, ending)
  }

  function FetchSteps(t: Tid, ending: Ending, size: nat): seq<Step> {
    if ending.NotFetched? then [FetchFails(t), DropLock(t)] else [FetchSucceeds(t, size)] + StoreSteps(t, ending)
  }

  function EndSteps(t: Tid, ending: Ending, size: nat): seq<Step> {
    if ending.Found? then [SecondHit(t), DropLock(t)] else [SecondMiss(t)] + FetchSteps(t, ending, size)
  }

  /** What each ending leaves in the cache; a failed write leaves whatever part of the data it wrote. */
  function FilesAfter(files: map<string, nat>, path: string, ending: Ending, size: nat): map<string, nat> {
    match ending
    case NotWritten(n) => files[path := n]
    case Stored => files[path := size]
    case _ => files
  }

  /** The request is over: it holds nothing, and the rest of the state is as before but for these files. */
  ghost predicate Finishes(s: State, t: Tid, steps: seq<Step>, files: map<string, nat>)
    requires t in s.requests && InLock(s.requests[t].pc)
  {
    Possible(s, steps) &&
    After(s, steps) == s.(requests := s.requests[t := Request(s.requests[t].path, Done)],
                          owners := s.owners - {LockOf(s.requests[t].pc).value}, files := files)
  }

  /** A step that leaves all but the thread's place and the files alone. */
  lemma FinishesAfter(s: State, t: Tid, step: Step, pc: Pc, files: map<string, nat>, rest: seq<Step>,
                      end: map<string, nat>)
    requires t in s.requests && InLock(s.requests[t].pc) && InLock(pc) && LockOf(pc) == LockOf(s.requests[t].pc)
    requires Enabled(s, step) && Apply(s, step) == s.Move(t, pc).(files := files)
    requires Finishes(Apply(s, step), t, rest, end)
    ensures Finishes(s, t, [step] + rest, end)
  {
    hide Enabled, Apply;
    OneMore(s, step, rest);
    var s1 := Apply(s, step);
    assert s1.requests[t := Request(s.requests[t].path, Done)] == s.requests[t := Request(s.requests[t].path, Done)];
  }

  lemma LeaveEnds(s: State, t: Tid)
    requires t in s.requests && s.requests[t].pc.LeaveLock?
    ensures Finishes(s, t, [DropLock(t)], s.files)
  {
    OneMore(s, DropLock(t), []);
    assert [DropLock(t)] + [] == [DropLock(t)];
  }

  lemma WriteEnds(s: State, t: Tid, ending: Ending)
    requires t in s.requests && s.requests[t].pc.Filling? && (ending.NotWritten? || ending.Stored?)
    requires ending.NotWritten? ==> ending.written <= s.requests[t].pc.size
    ensures var r := s.requests[t];
            Finishes(s, t, WriteSteps(t, ending), FilesAfter(s.files, r.path, ending, r.pc.size))
  {
    hide Finishes;
    var step := WriteSteps(t, ending)[0];
    var files := FilesAfter(s.files, s.requests[t].path, ending, s.requests[t].pc.size);
    LeaveEnds(Apply(s, step), t);
    FinishesAfter(s, t, step, LeaveLock(s.requests[t].pc.lock), files, [DropLock(t)], files);
    assert [step] + [DropLock(t)] == WriteSteps(t, ending);
  }

  lemma StoreEnds(s: State, t: Tid, ending: Ending)
    requires t in s.requests && s.requests[t].pc.Storing? && !ending.Found? && !ending.NotFetched?
    requires ending.NotWritten? ==> ending.written <= s.requests[t].pc.size
    ensures var r := s.requests[t];
            Finishes(s, t, StoreSteps(t, ending), FilesAfter(s.files, r.path, ending, r.pc.size))
  {
    hide Finishes;
    var r := s.requests[t];
    var end := FilesAfter(s.files, r.path, ending, r.pc.size);
    if ending.NotOpened? {
      LeaveEnds(Apply(s, OpenFails(t)), t);
      FinishesAfter(s, t, OpenFails(t), LeaveLock(r.pc.lock), s.files, [DropLock(t)], end);
      assert [OpenFails(t)] + [DropLock(t)] == StoreSteps(t, ending);
    } else {
      var s1 := Apply(s, Truncate(t));
      WriteEnds(s1, t, ending);
      assert FilesAfter(s1.files, r.path, ending, r.pc.size) == end;
      FinishesAfter(s, t, Truncate(t), Filling(r.pc.lock, r.pc.size), s1.files, WriteSteps(t, ending), end);
    }
  }

  /** A fetch: if it and the write succeed, exactly what was fetched is stored. */
  lemma FetchEnds(s: State, t: Tid, ending: Ending, size: nat)
    requires t in s.requests && s.requests[t].pc.Fetching? && !ending.Found?
    requires ending.NotWritten? ==> ending.written <= size
    ensures Finishes(s, t, FetchSteps(t, ending, size), FilesAfter(s.files, s.requests[t].path, ending, size))
  {
    hide Finishes;
    var r := s.requests[t];
    var end := FilesAfter(s.files, r.path, ending, size);
    if ending.NotFetched? {
      LeaveEnds(Apply(s, FetchFails(t)), t);
      FinishesAfter(s, t, FetchFails(t), LeaveLock(r.pc.lock), s.files, [DropLock(t)], end);
      assert [FetchFails(t)] + [DropLock(t)] == FetchSteps(t, ending, size);
    } else {
      StoreEnds(Apply(s, FetchSucceeds(t, size)), t, ending);
      FinishesAfter(s, t, FetchSucceeds(t, size), Storing(r.pc.lock, size), s.files, StoreSteps(t, ending), end);
    }
  }

  /** However a request ends, it gives its lock back; and it finds the file exactly if it is cached. */
  lemma RequestEnds(s: State, t: Tid, ending: Ending, size: nat)
    requires t in s.requests && s.requests[t].pc.SecondCheck? && (ending.NotWritten? ==> ending.written <= size)
    requires var path := s.requests[t].path; ending.Found? <==> path in s.files && s.files[path] > 0
    ensures Finishes(s, t, EndSteps(t, ending, size), FilesAfter(s.files, s.requests[t].path, ending, size))
  {
    hide Finishes;
    var r := s.requests[t];
    var end := FilesAfter(s.files, r.path, ending, size);
    if ending.Found? {
      LeaveEnds(Apply(s, SecondHit(t)), t);
      FinishesAfter(s, t, SecondHit(t), LeaveLock(r.pc.lock), s.files, [DropLock(t)], end);
      assert [SecondHit(t)] + [DropLock(t)] == EndSteps(t, ending, size);
    } else {
      FetchEnds(Apply(s, SecondMiss(t)), t, ending, size);
      FinishesAfter(s, t, SecondMiss(t), Fetching(r.pc.lock), s.files, FetchSteps(t, ending, size), end);
    }
  }

  lemma OneHolder(s: State, t: Tid, u: Tid)
    requires Inv(s) && t in s.requests && u in s.requests && s.requests[t].path == s.requests[u].path
    requires InLock(s.requests[t].pc) && InLock(s.requests[u].pc)
    ensures t == u
  {
  }

  /** A stored thumbnail that is not empty settles its path. */
  lemma StoredSettles(s: State, t: Tid, size: nat)
    requires Inv(s) && t in s.requests && s.requests[t].pc.Fetching? && size > 0
    ensures Possible(s, FetchSteps(t, Stored, size))
    ensures Settled(After(s, FetchSteps(t, Stored, size)), s.requests[t].path)
  {
    FetchEnds(s, t, Stored, size);
    var path, s' := s.requests[t].path, After(s, FetchSteps(t, Stored, size));
    forall u | u in s'.requests && s'.requests[u].path == path
      ensures !InFlight(s'.requests[u].pc)
    {
      if InFlight(s'.requests[u].pc) {
        OneHolder(s, t, u);
      }
    }
  }

  lemma {:induction false} Append(s: State, a: seq<Step>, b: seq<Step>)
    requires Possible(s, a) && Possible(After(s, a), b)
    ensures Possible(s, a + b) && After(s, a + b) == After(After(s, a), b)
    decreases |a|
  {
    if a == [] {
      assert a + b == b;
    } else {
      Append(Apply(s, a[0]), a[1..], b);
      OneMore(s, a[0], a[1..] + b);
      assert a + b == [a[0]] + (a[1..] + b);
    }
  }

  /** The path's lock object, old or new. */
  function LockFor(s: State, path: string): nat {
    if path in s.locks then s.locks[path] else s.nextLock
  }

  lemma FirstCheckMisses(s: State, t: Tid, path: string)
    requires Inv(s) && t !in s.requests
    ensures var steps := [Begin(t, path), FirstMiss(t)];
            Possible(s, steps) && After(s, steps) == At(s, t, path, AskGuard) &&
            Inv(After(s, steps))
  {
    var s1 := Apply(s, Begin(t, path));
    OneMore(s1, FirstMiss(t), []);
    OneMore(s, Begin(t, path), [FirstMiss(t)]);
    assert [Begin(t, path)] + [FirstMiss(t)] == [Begin(t, path), FirstMiss(t)];
    RunKeepsInv(s, [Begin(t, path), FirstMiss(t)]);
  }

  /** The second check of a request whose first check missed and that nobody kept waiting. */
  lemma SecondCheckReached(s: State, t: Tid, path: string) returns (steps: seq<Step>)
    requires Inv(s) && t !in s.requests && s.guard.None? && IsFree(s, path)
    ensures steps == [Begin(t, path), FirstMiss(t)] + LockSteps(s, t, path) + [TakeLock(t)]
    ensures Possible(s, steps)
    ensures var lock := LockFor(s, path);
            After(s, steps) == At(s, t, path, SecondCheck(lock)).(
              locks := s.locks[path := lock], owners := s.owners[lock := t],
              nextLock := if path in s.locks then s.nextLock else s.nextLock + 1)
  {
    hide Enabled, Apply, Inv, Possible, After;
    var start := [Begin(t, path), FirstMiss(t)];
    FirstCheckMisses(s, t, path);
    var s2 := After(s, start);
    LockIsObtained(s, t, path);
    var s3 := After(s2, LockSteps(s2, t, path));
    RunKeepsInv(s2, LockSteps(s2, t, path));
    NewLockIsFree(s);
    LockIsTaken(s3, t);
    Last(s3, TakeLock(t));
    Append(s2, LockSteps(s2, t, path), [TakeLock(t)]);
    Append(s, start, LockSteps(s2, t, path) + [TakeLock(t)]);
    steps := start + LockSteps(s, t, path) + [TakeLock(t)];
    assert steps == start + (LockSteps(s, t, path) + [TakeLock(t)]);
  }

  lemma OwnedIsOld(s: State, lock: nat)
    requires Inv(s) && lock in s.owners
    ensures lock < s.nextLock
  {
    var u := s.owners[lock];
    assert u in s.requests && LockOf(s.requests[u].pc) == Some(lock);
  }

  lemma NewLockIsFree(s: State)
    requires Inv(s)
    ensures s.nextLock !in s.owners
  {
    if s.nextLock in s.owners {
      OwnedIsOld(s, s.nextLock);
    }
  }

  /**
   A whole undisturbed request of a path that the first check does not find:
   it gets the path's lock, ends as its surroundings decide, and leaves
   nothing behind but the file and the lock object.
   */
  lemma RequestCompletes(s: State, t: Tid, path: string, ending: Ending, size: nat) returns (steps: seq<Step>)
    requires Inv(s) && t !in s.requests && s.guard.None? && IsFree(s, path)
    requires ending.NotWritten? ==> ending.written <= size
    requires ending.Found? <==> path in s.files && s.files[path] > 0
    ensures Possible(s, steps)
    ensures After(s, steps) == At(s, t, path, Done).(
              locks := s.locks[path := LockFor(s, path)],
              nextLock := if path in s.locks then s.nextLock else s.nextLock + 1,
              files := FilesAfter(s.files, path, ending, size))
  {
    hide Enabled, Apply, Inv, EndSteps, FilesAfter;
    var start := SecondCheckReached(s, t, path);
    var s1, lock := After(s, start), LockFor(s, path);
    RequestEnds(s1, t, ending, size);
    NewLockIsFree(s);
    assert s.owners[lock := t] - {lock} == s.owners;
    Append(s, start, EndSteps(t, ending, size));
    steps := start + EndSteps(t, ending, size);
    assert s1.requests[t := Request(path, Done)] == s.requests[t := Request(path, Done)];
  }

  /** A write that fails halfway leaves a file that counts as cached, and the next request is served from it. */
  lemma PartialWriteIsServed(s: State, t: Tid, u: Tid, size: nat, written: nat)
    requires t in s.requests && s.requests[t].pc.Fetching? && u !in s.requests && 0 < written < size
    ensures var fetch := FetchSteps(t, NotWritten(written), size);
            var path := s.requests[t].path;
            Possible(s, fetch) && After(s, fetch).files == s.files[path := written] &&
            Possible(After(s, fetch), [Begin(u, path), FirstHit(u)])
  {
    FetchEnds(s, t, NotWritten(written), size);
    CachedIsServed(After(s, FetchSteps(t, NotWritten(written), size)), u, s.requests[t].path);
  }

  /** While a thread is filling a file, the file is empty, so no other request is served from it. */
  ghost predicate FillsEmpty(s: State) {
    forall t <- s.requests :: s.requests[t].pc.Filling? ==>
                                s.requests[t].path in s.files && s.files[s.requests[t].path] == 0
  }

  /** A file changes only in the hands of a thread in flight, and starts being filled only by being truncated. */
  lemma FilesEffect(s: State, step: Step)
    requires Enabled(s, step)
    ensures var s' := Apply(s, step);
            s'.files == s.files ||
            (step.t in s.requests && InFlight(s.requests[step.t].pc) &&
             forall p <- s.files :: p != s.requests[step.t].path ==> p in s'.files && s'.files[p] == s.files[p])
    ensures PcOf(Apply(s, step), step.t).Filling? ==>
              step.t in s.requests && Apply(s, step).files == s.files[s.requests[step.t].path := 0]
  {
  }

  lemma StepFillsEmpty(s: State, step: Step)
    requires Inv(s) && Enabled(s, step) && FillsEmpty(s)
    ensures FillsEmpty(Apply(s, step))
  {
    hide Enabled, Apply, Inv;
    OthersUnchanged(s, step);
    FilesEffect(s, step);
    var s' := Apply(s, step);
    forall u | u in s'.requests && s'.requests[u].pc.Filling?
      ensures s'.requests[u].path in s'.files && s'.files[s'.requests[u].path] == 0
    {
      if u != step.t && s'.files != s.files && s.requests[u].path == s.requests[step.t].path {
        OneHolder(s, step.t, u);
      }
    }
  }

  lemma {:induction false} RunFillsEmpty(s: State, steps: seq<Step>)
    requires Inv(s) && Possible(s, steps) && FillsEmpty(s)
    ensures FillsEmpty(After(s, steps))
    decreases |steps|
  {
    if steps != [] {
      StepFillsEmpty(s, steps[0]);
      StepKeepsInv(s, steps[0]);
      RunFillsEmpty(Apply(s, steps[0]), steps[1..]);
    }
  }

  // ------------------------------------------------------------- how requests end

  lemma {:induction false} Prefix(s: State, steps: seq<Step>, k: nat)
    requires Possible(s, steps) && k < |steps|
    ensures Possible(s, steps[..k]) && Enabled(After(s, steps[..k]), steps[k])
    ensures Possible(s, steps[..k + 1]) && After(s, steps[..k + 1]) == Apply(After(s, steps[..k]), steps[k])
    decreases |steps|
  {
    if k == 0 {
      assert steps[..1] == [steps[0]] && [steps[0]][1..] == [];
    } else {
      var s1, rest := Apply(s, steps[0]), steps[1..];
      Prefix(s1, rest, k - 1);
      assert steps[..k] == [steps[0]] + rest[..k - 1] && steps[..k + 1] == [steps[0]] + rest[..k];
      OneMore(s, steps[0], rest[..k - 1]);
      OneMore(s, steps[0], rest[..k]);
    }
  }

  /** Step number `k` of the run ends the thread's request: by a cached file, an error, or a complete write. */
  ghost predicate EndsBy(steps: seq<Step>, t: Tid, path: string, k: nat)
    requires Possible(INITIAL, steps) && k < |steps|
  {
    Prefix(INITIAL, steps, k);
    var before, after := After(INITIAL, steps[..k]), After(INITIAL, steps[..k + 1]);
    steps[k].t == t &&
    match steps[k]
    case FirstHit(_) => path in before.files && before.files[path] > 0
    case SecondHit(_) => path in before.files && before.files[path] > 0
    case FetchFails(_) => true
    case OpenFails(_) => true
    case WriteFails(_, _) => true
    case WriteSucceeds(_) =>
      path in after.files && exists j: nat :: j < k && steps[j] == FetchSucceeds(t, after.files[path])
    case _ => false
  }

  /** What a thread's place says about its past. */
  ghost predicate Past(steps: seq<Step>, t: Tid)
    requires Possible(INITIAL, steps)
  {
    var s := After(INITIAL, steps);
    t in s.requests ==>
      match s.requests[t].pc
      case Storing(_, size) => FetchSucceeds(t, size) in steps
      case Filling(_, size) => FetchSucceeds(t, size) in steps
      case LeaveLock(_) => exists k: nat :: k < |steps| && EndsBy(steps, t, s.requests[t].path, k)
      case Done => exists k: nat :: k < |steps| && EndsBy(steps, t, s.requests[t].path, k)
      case _ => true
  }

  lemma EndsStays(steps: seq<Step>, last: Step, t: Tid, path: string, k: nat)
    requires Possible(INITIAL, steps + [last]) && Possible(INITIAL, steps) && k < |steps| && EndsBy(steps, t, path, k)
    ensures EndsBy(steps + [last], t, path, k)
  {
    hide After, Possible;
    assert (steps + [last])[..k] == steps[..k] && (steps + [last])[..k + 1] == steps[..k + 1];
  }

  /** One more step of a run. */
  lemma Snoc(steps: seq<Step>, last: Step)
    requires Possible(INITIAL, steps + [last])
    ensures var run, n := steps + [last], |steps|;
            Possible(INITIAL, steps) && Enabled(After(INITIAL, steps), last) &&
            run[..n] == steps && run[..n + 1] == run &&
            After(INITIAL, run) == Apply(After(INITIAL, steps), last)
  {
    var run := steps + [last];
    Prefix(INITIAL, run, |steps|);
    assert run[..|steps|] == steps && run[..|steps| + 1] == run;
  }

  lemma EndsStaySomewhere(steps: seq<Step>, last: Step, t: Tid, path: string)
    requires Possible(INITIAL, steps + [last]) && Possible(INITIAL, steps)
    requires exists k: nat :: k < |steps| && EndsBy(steps, t, path, k)
    ensures exists k: nat :: k < |steps + [last]| && EndsBy(steps + [last], t, path, k)
  {
    hide EndsBy;
    var k: nat :| k < |steps| && EndsBy(steps, t, path, k);
    EndsStays(steps, last, t, path, k);
  }

  /** The step that ends a request. */
  lemma EndsNow(steps: seq<Step>, last: Step)
    requires Possible(INITIAL, steps + [last]) && Possible(INITIAL, steps) && Past(steps, last.t)
    requires last.FirstHit? || last.SecondHit? || last.FetchFails? || last.OpenFails? || last.WriteFails? ||
             last.WriteSucceeds?
    ensures last.t in After(INITIAL, steps).requests
    ensures EndsBy(steps + [last], last.t, After(INITIAL, steps).requests[last.t].path, |steps|)
  {
    hide After, Possible;
    Snoc(steps, last);
    if last.WriteSucceeds? {
      var s := After(INITIAL, steps);
      var size := s.requests[last.t].pc.size;
      var j :| 0 <= j < |steps| && steps[j] == FetchSucceeds(last.t, size);
      assert (steps + [last])[j] == FetchSucceeds(last.t, size);
    }
  }

  lemma PastStep(steps: seq<Step>, last: Step, t: Tid)
    requires Possible(INITIAL, steps + [last]) && Possible(INITIAL, steps) && Past(steps, t)
    ensures Past(steps + [last], t)
  {
    hide After, Possible, EndsBy;
    Snoc(steps, last);
    var run, s := steps + [last], After(INITIAL, steps);
    OthersUnchanged(s, last);
    if t in s.requests && (s.requests[t].pc.LeaveLock? || s.requests[t].pc.Done?) {
      EndsStaySomewhere(steps, last, t, s.requests[t].path);
    }
    if last.t == t {
      if last.FirstHit? || last.SecondHit? || last.FetchFails? || last.OpenFails? || last.WriteFails? ||
         last.WriteSucceeds? {
        EndsNow(steps, last);
      }
      assert run[|steps|] == last;
    }
  }

  lemma {:induction false} PastHolds(steps: seq<Step>, t: Tid)
    requires Possible(INITIAL, steps)
    ensures Past(steps, t)
    decreases |steps|
  {
    if steps != [] {
      var n := |steps| - 1;
      Prefix(INITIAL, steps, n);
      assert steps == steps[..n] + [steps[n]];
      PastHolds(steps[..n], t);
      PastStep(steps[..n], steps[n], t);
    }
  }

  /**
   In every run, a finished request saw a cached file, or its fetch, its open
   or its write failed, or it wrote exactly as much as it had fetched.
   */
  lemma FinishedRequest(steps: seq<Step>, t: Tid)
    requires Possible(INITIAL, steps) && t in After(INITIAL, steps).requests
    requires After(INITIAL, steps).requests[t].pc.Done?
    ensures exists k: nat :: k < |steps| && EndsBy(steps, t, After(INITIAL, steps).requests[t].path, k)
  {
    PastHolds(steps, t);
  }
}
