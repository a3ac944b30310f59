/**
 Single-flight thumbnail fetching (`qBitrr/webui_thumbnails.py`) as a state
 machine: a cache check, a per-path lock found or created under a guard, a
 second check, then the fetch and a file write that is neither atomic nor sure
 to succeed.  The steps of all request threads interleave freely.
 */
module SingleFlight {
  import opened Wrappers

  type Tid = nat

  datatype Pc =
    | FirstCheck
    | AskGuard              // before `with _FLIGHT_GUARD`
    | Lookup                // inside the guard, before `_FLIGHT_LOCKS.get`
    | Create                // inside the guard, no lock found
    | LeaveGuard(lock: nat)
    | AskLock(lock: nat)    // before `with lock`
    | SecondCheck(lock: nat)
    | Fetching(lock: nat)
    | Storing(lock: nat, size: nat) // before `path.write_bytes`
    | Filling(lock: nat, size: nat) // the file is truncated, the data not yet written
    | LeaveLock(lock: nat)
    | Done

  datatype Request = Request(path: string, pc: Pc)

  datatype State = State(
    requests: map<Tid, Request>,
    guard: Option<Tid>,
    locks: map<string, nat>,  // `_FLIGHT_LOCKS`
    owners: map<nat, Tid>,    // which thread holds which lock
    nextLock: nat,
    files: map<string, nat>)  // size of each cache file that exists
  {
    function Move(t: Tid, pc: Pc): State
      requires t in requests
    {
      this.(requests := requests[t := requests[t].(pc := pc)])
    }

    /** `_cache_hit_payload` finds a non-empty file. */
    predicate Cached(path: string) {
      path in files && files[path] > 0
    }
  }

  const INITIAL := State(map[], None, map[], map[], 0, map[])

  datatype Step =
    | Begin(t: Tid, path: string)
    | FirstHit(t: Tid)
    | FirstMiss(t: Tid)
    | TakeGuard(t: Tid)
    | FindLock(t: Tid)
    | MissLock(t: Tid)
    | CreateLock(t: Tid)
    | DropGuard(t: Tid)
    | TakeLock(t: Tid)
    | SecondHit(t: Tid)
    | SecondMiss(t: Tid)
    | StatFails(t: Tid)            // the second check cannot stat the file and counts as a miss
    | FetchFails(t: Tid)
    | FetchSucceeds(t: Tid, size: nat)
    | OpenFails(t: Tid)
    | Truncate(t: Tid)
    | WriteFails(t: Tid, written: nat)
    | WriteSucceeds(t: Tid)
    | DropLock(t: Tid)

  predicate Enabled(s: State, step: Step) {
    if step.Begin? then step.t !in s.requests
    else
      step.t in s.requests &&
      var r := s.requests[step.t];
      match step
      case Begin(_, _) => true
      case FirstHit(_) => r.pc.FirstCheck? && s.Cached(r.path)
      case FirstMiss(_) => r.pc.FirstCheck?
      case TakeGuard(_) => r.pc.AskGuard? && s.guard.None?
      case FindLock(_) => r.pc.Lookup? && r.path in s.locks
      case MissLock(_) => r.pc.Lookup? && r.path !in s.locks
      case CreateLock(_) => r.pc.Create?
      case DropGuard(_) => r.pc.LeaveGuard?
      case TakeLock(_) => r.pc.AskLock? && r.pc.lock !in s.owners
      case SecondHit(_) => r.pc.SecondCheck? && s.Cached(r.path)
      case SecondMiss(_) => r.pc.SecondCheck? && !s.Cached(r.path)
      case StatFails(_) => r.pc.SecondCheck?
      case FetchFails(_) => r.pc.Fetching?
      case FetchSucceeds(_, _) => r.pc.Fetching?
      case OpenFails(_) => r.pc.Storing?
      case Truncate(_) => r.pc.Storing?
      case WriteFails(_, written) => r.pc.Filling? && written <= r.pc.size
      case WriteSucceeds(_) => r.pc.Filling?
      case DropLock(_) => r.pc.LeaveLock?
  }

  function Apply(s: State, step: Step): State
    requires Enabled(s, step)
  {
    if step.Begin? then s.(requests := s.requests[step.t := Request(step.path, FirstCheck)])
    else
      var r := s.requests[step.t];
      match step
      case Begin(_, _) => s
      case FirstHit(t) => s.Move(t, Done)
      case FirstMiss(t) => s.Move(t, AskGuard)
      case TakeGuard(t) => s.Move(t, Lookup).(guard := Some(t))
      case FindLock(t) => s.Move(t, LeaveGuard(s.locks[r.path]))
      case MissLock(t) => s.Move(t, Create)
      case CreateLock(t) =>
        s.Move(t, LeaveGuard(s.nextLock)).(locks := s.locks[r.path := s.nextLock], nextLock := s.nextLock + 1)
      case DropGuard(t) => s.Move(t, AskLock(r.pc.lock)).(guard := None)
      case TakeLock(t) => s.Move(t, SecondCheck(r.pc.lock)).(owners := s.owners[r.pc.lock := t])
      case SecondHit(t) => s.Move(t, LeaveLock(r.pc.lock))
      case SecondMiss(t) => s.Move(t, Fetching(r.pc.lock))
      case StatFails(t) => s.Move(t, Fetching(r.pc.lock))
      case FetchFails(t) => s.Move(t, LeaveLock(r.pc.lock))
      case FetchSucceeds(t, size) => s.Move(t, Storing(r.pc.lock, size))
      case OpenFails(t) => s.Move(t, LeaveLock(r.pc.lock))
      case Truncate(t) => s.Move(t, Filling(r.pc.lock, r.pc.size)).(files := s.files[r.path := 0])
      case WriteFails(t, written) => s.Move(t, LeaveLock(r.pc.lock)).(files := s.files[r.path := written])
      case WriteSucceeds(t) => s.Move(t, LeaveLock(r.pc.lock)).(files := s.files[r.path := r.pc.size])
      case DropLock(t) => s.Move(t, Done).(owners := s.owners - {r.pc.lock})
  }

  ghost predicate Possible(s: State, steps: seq<Step>)
    decreases |steps|
  {
    steps == [] || (Enabled(s, steps[0]) && Possible(Apply(s, steps[0]), steps[1..]))
  }

  function After(s: State, steps: seq<Step>): State
    requires Possible(s, steps)
    decreases |steps|
  {
    if steps == [] then s else After(Apply(s, steps[0]), steps[1..])
  }

  // ------------------------------------------------------------------ invariant

  /** The lock object the thread has obtained. */
  function LockOf(pc: Pc): Option<nat> {
    match pc
    case LeaveGuard(l) => Some(l)
    case AskLock(l) => Some(l)
    case SecondCheck(l) => Some(l)
    case Fetching(l) => Some(l)
    case Storing(l, _) => Some(l)
    case Filling(l, _) => Some(l)
    case LeaveLock(l) => Some(l)
    case _ => None
  }

  predicate InGuard(pc: Pc) {
    pc.Lookup? || pc.Create? || pc.LeaveGuard?
  }

  predicate InLock(pc: Pc) {
    LockOf(pc).Some? && !pc.LeaveGuard? && !pc.AskLock?
  }

  /** Between the decision to fetch and the end of the write. */
  predicate InFlight(pc: Pc) {
    pc.Fetching? || pc.Storing? || pc.Filling?
  }

  ghost predicate GuardOk(s: State) {
    (forall t <- s.requests :: InGuard(s.requests[t].pc) <==> s.guard == Some(t)) &&
    (s.guard.Some? ==> s.guard.value in s.requests) &&
    (forall t <- s.requests :: s.requests[t].pc.Create? ==> s.requests[t].path !in s.locks)
  }

  ghost predicate LocksOk(s: State) {
    (forall p <- s.locks :: s.locks[p] < s.nextLock) &&
    (forall p, q :: p in s.locks && q in s.locks && s.locks[p] == s.locks[q] ==> p == q) &&
    (forall t <- s.requests :: LockOf(s.requests[t].pc).Some? ==>
                                 s.requests[t].path in s.locks &&
                                 LockOf(s.requests[t].pc) == Some(s.locks[s.requests[t].path]))
  }

  ghost predicate OwnersOk(s: State) {
    (forall t <- s.requests :: InLock(s.requests[t].pc) ==>
                                 LockOf(s.requests[t].pc).value in s.owners &&
                                 s.owners[LockOf(s.requests[t].pc).value] == t) &&
    (forall l <- s.owners :: s.owners[l] in s.requests && InLock(s.requests[s.owners[l]].pc) &&
                             LockOf(s.requests[s.owners[l]].pc) == Some(l))
  }

  ghost predicate Inv(s: State) {
    GuardOk(s) && LocksOk(s) && OwnersOk(s)
  }

  lemma InitialInv()
    ensures Inv(INITIAL)
  {
  }

  lemma OneRequestChanges(s: State, step: Step)
    requires Enabled(s, step)
    ensures step.t in Apply(s, step).requests
    ensures Apply(s, step).requests == s.requests[step.t := Apply(s, step).requests[step.t]]
    ensures step.t in s.requests ==> Apply(s, step).requests[step.t].path == s.requests[step.t].path
  {
    hide State.Cached;
  }

  /** Only the acting thread's request changes, and its path never does. */
  lemma OthersUnchanged(s: State, step: Step)
    requires Enabled(s, step)
    ensures var s' := Apply(s, step);
            s'.requests.Keys == s.requests.Keys + {step.t} &&
            (forall t <- s.requests :: s'.requests[t].path == s.requests[t].path &&
                                       (t != step.t ==> s'.requests[t] == s.requests[t]))
  {
    hide Enabled, Apply;
    OneRequestChanges(s, step);
  }

  /** Locks are only ever added, each under a fresh name and for a new path. */
  lemma LockEffect(s: State, step: Step)
    requires GuardOk(s) && Enabled(s, step)
    ensures var s' := Apply(s, step);
            (s'.locks == s.locks && s'.nextLock == s.nextLock) ||
            (step.CreateLock? && s.requests[step.t].path !in s.locks &&
             s'.locks == s.locks[s.requests[step.t].path := s.nextLock] && s'.nextLock == s.nextLock + 1)
  {
  }

  /** The program counter of the acting thread, before the step. */
  function PcOf(s: State, t: Tid): Pc {
    if t in s.requests then s.requests[t].pc else Done
  }

  /** A step leaves the guard alone, takes it when free, or returns it; only a holder creates locks. */
  lemma GuardEffect(s: State, step: Step)
    requires Enabled(s, step)
    ensures var t, s' := step.t, Apply(s, step);
            var had, has := PcOf(s, t), PcOf(s', t);
            ((InGuard(had) <==> InGuard(has)) && s'.guard == s.guard) ||
            (!InGuard(had) && InGuard(has) && s.guard.None? && s'.guard == Some(t)) ||
            (InGuard(had) && !InGuard(has) && s'.guard.None?)
    ensures var t, s' := step.t, Apply(s, step);
            (PcOf(s', t).Create? ==> s'.requests[t].path !in s'.locks) && (s'.locks != s.locks ==> InGuard(PcOf(s, t)))
  {
  }

  lemma GuardFollows(s: State, s': State, t: Tid)
    requires GuardOk(s) && t in s'.requests && s'.requests.Keys == s.requests.Keys + {t}
    requires forall u <- s.requests :: u != t ==> s'.requests[u] == s.requests[u]
    requires var had, has := PcOf(s, t), PcOf(s', t);
             ((InGuard(had) <==> InGuard(has)) && s'.guard == s.guard) ||
             (!InGuard(had) && InGuard(has) && s.guard.None? && s'.guard == Some(t)) ||
             (InGuard(had) && !InGuard(has) && s'.guard.None?)
    requires (PcOf(s', t).Create? ==> s'.requests[t].path !in s'.locks) && (s'.locks != s.locks ==> InGuard(PcOf(s, t)))
    ensures GuardOk(s')
  {
    forall u | u in s'.requests && u != t
      ensures InGuard(s'.requests[u].pc) <==> s'.guard == Some(u)
      ensures s'.requests[u].pc.Create? ==> s'.requests[u].path !in s'.locks
    {
      assert u in s.requests && s'.requests[u] == s.requests[u];
    }
  }

  /** A thread's lock is the one it had, or that of its path. */
  lemma LockOfEffect(s: State, step: Step)
    requires Enabled(s, step)
    ensures var t, s' := step.t, Apply(s, step);
            var has := LockOf(PcOf(s', t));
            has.Some? ==> (t in s.requests && has == LockOf(PcOf(s, t))) ||
                          (s'.requests[t].path in s'.locks && has == Some(s'.locks[s'.requests[t].path]))
  {
  }

  lemma LocksFollow(s: State, s': State, t: Tid)
    requires LocksOk(s) && t in s'.requests && s'.requests.Keys == s.requests.Keys + {t}
    requires forall u <- s.requests ::
               s'.requests[u].path == s.requests[u].path && (u != t ==> s'.requests[u] == s.requests[u])
    requires (s'.locks == s.locks && s'.nextLock == s.nextLock) ||
             (t in s.requests && s.requests[t].path !in s.locks &&
              s'.locks == s.locks[s.requests[t].path := s.nextLock] && s'.nextLock == s.nextLock + 1)
    requires LockOf(PcOf(s', t)).Some? ==>
               (t in s.requests && LockOf(PcOf(s', t)) == LockOf(PcOf(s, t))) ||
               (s'.requests[t].path in s'.locks && LockOf(PcOf(s', t)) == Some(s'.locks[s'.requests[t].path]))
    ensures LocksOk(s')
  {
    forall u | u in s'.requests && LockOf(s'.requests[u].pc).Some?
      ensures s'.requests[u].path in s'.locks && LockOf(s'.requests[u].pc) == Some(s'.locks[s'.requests[u].path])
    {
      assert u != t ==> u in s.requests && s'.requests[u] == s.requests[u];
    }
  }

  lemma CreatorIsKnown(s: State, step: Step)
    requires Enabled(s, step)
    ensures step.CreateLock? ==> step.t in s.requests
  {
  }

  /** A step leaves the owners alone, takes a free lock, or returns the thread's own. */
  lemma OwnerEffect(s: State, step: Step)
    requires Enabled(s, step)
    ensures var t, s' := step.t, Apply(s, step);
            var had, has := PcOf(s, t), PcOf(s', t);
            (InLock(had) == InLock(has) && (InLock(had) ==> LockOf(had) == LockOf(has)) && s'.owners == s.owners) ||
            (!InLock(had) && InLock(has) && LockOf(has).value !in s.owners &&
             s'.owners == s.owners[LockOf(has).value := t]) ||
            (InLock(had) && !InLock(has) && s'.owners == s.owners - {LockOf(had).value})
  {
    hide State.Cached;
  }

  lemma OwnersFollow(s: State, s': State, t: Tid)
    requires OwnersOk(s) && t in s'.requests && s'.requests.Keys == s.requests.Keys + {t}
    requires forall u <- s.requests :: u != t ==> s'.requests[u] == s.requests[u]
    requires var had, has := PcOf(s, t), PcOf(s', t);
             (InLock(had) == InLock(has) && (InLock(had) ==> LockOf(had) == LockOf(has)) && s'.owners == s.owners) ||
             (!InLock(had) && InLock(has) && LockOf(has).value !in s.owners &&
              s'.owners == s.owners[LockOf(has).value := t]) ||
             (InLock(had) && !InLock(has) && s'.owners == s.owners - {LockOf(had).value})
    ensures OwnersOk(s')
  {
    forall u | u in s'.requests && InLock(s'.requests[u].pc)
      ensures LockOf(s'.requests[u].pc).value in s'.owners && s'.owners[LockOf(s'.requests[u].pc).value] == u
    {
      assert u != t ==> u in s.requests && s'.requests[u] == s.requests[u];
    }
    forall l | l in s'.owners
      ensures s'.owners[l] in s'.requests && InLock(s'.requests[s'.owners[l]].pc) &&
              LockOf(s'.requests[s'.owners[l]].pc) == Some(l)
    {
      var u := s'.owners[l];
      assert u != t ==> l in s.owners && s.owners[l] == u && s'.requests[u] == s.requests[u];
    }
  }

  lemma StepKeepsInv(s: State, step: Step)
    requires Inv(s) && Enabled(s, step)
    ensures Inv(Apply(s, step))
  {
    hide Apply, Enabled, InGuard, InLock, LockOf;
    var s' := Apply(s, step);
    OthersUnchanged(s, step);
    LockEffect(s, step);
    CreatorIsKnown(s, step);
    GuardEffect(s, step);
    GuardFollows(s, s', step.t);
    LockOfEffect(s, step);
    LocksFollow(s, s', step.t);
    OwnerEffect(s, step);
    OwnersFollow(s, s', step.t);
  }

  lemma {:induction false} RunKeepsInv(s: State, steps: seq<Step>)
    requires Inv(s) && Possible(s, steps)
    ensures Inv(After(s, steps))
    decreases |steps|
  {
    if steps != [] {
      StepKeepsInv(s, steps[0]);
      RunKeepsInv(Apply(s, steps[0]), steps[1..]);
    }
  }

  // ------------------------------------------------------------------- theorems

  /** Threads that ask for the same path get the same lock object; for different paths, different ones. */
  lemma SamePathSameLock(steps: seq<Step>, t: Tid, u: Tid)
    requires Possible(INITIAL, steps)
    requires var s := After(INITIAL, steps);
             t in s.requests && u in s.requests && LockOf(s.requests[t].pc).Some? && LockOf(s.requests[u].pc).Some?
    ensures var s := After(INITIAL, steps);
            LockOf(s.requests[t].pc) == LockOf(s.requests[u].pc) <==> s.requests[t].path == s.requests[u].path
  {
    InitialInv();
    RunKeepsInv(INITIAL, steps);
  }

  /** The lock of a path, once created, is that path's lock for the rest of the run. */
  lemma {:induction false} LockIsForever(s: State, steps: seq<Step>, path: string)
    requires Inv(s) && Possible(s, steps) && path in s.locks
    ensures path in After(s, steps).locks && After(s, steps).locks[path] == s.locks[path]
    decreases |steps|
  {
    if steps != [] {
      LockEffect(s, steps[0]);
      StepKeepsInv(s, steps[0]);
      LockIsForever(Apply(s, steps[0]), steps[1..], path);
    }
  }

  /** At most one thread at a time fetches or writes a path. */
  lemma OneFlightPerPath(steps: seq<Step>, t: Tid, u: Tid)
    requires Possible(INITIAL, steps)
    requires var s := After(INITIAL, steps);
             t in s.requests && u in s.requests && s.requests[t].path == s.requests[u].path &&
             InFlight(s.requests[t].pc) && InFlight(s.requests[u].pc)
    ensures t == u
  {
    InitialInv();
    RunKeepsInv(INITIAL, steps);
    SamePathSameLock(steps, t, u);
  }

  /** The path is cached and nobody is about to fetch or rewrite it. */
  ghost predicate Settled(s: State, path: string) {
    s.Cached(path) && forall t <- s.requests :: s.requests[t].path == path ==> !InFlight(s.requests[t].pc)
  }

  /** A step that decides to fetch. */
  predicate StartsFetch(s: State, step: Step, path: string) {
    (step.SecondMiss? || step.StatFails?) && step.t in s.requests && s.requests[step.t].path == path
  }

  lemma StoreSettles(s: State, t: Tid)
    requires Inv(s) && Enabled(s, WriteSucceeds(t)) && s.requests[t].pc.size > 0
    ensures Settled(Apply(s, WriteSucceeds(t)), s.requests[t].path)
  {
    var s' := Apply(s, WriteSucceeds(t));
    forall u | u in s'.requests && s'.requests[u].path == s.requests[t].path
      ensures !InFlight(s'.requests[u].pc)
    {
      if u != t {
        assert s.requests[u].path == s.requests[t].path;
        assert InLock(s.requests[t].pc);
      }
    }
  }

  /** Cache files change only for a path in flight. */
  lemma FileEffect(s: State, step: Step, path: string)
    requires Enabled(s, step) && s.Cached(path)
    ensures Apply(s, step).Cached(path) ||
            (step.t in s.requests && s.requests[step.t].path == path && InFlight(s.requests[step.t].pc))
    ensures var had, has := PcOf(s, step.t), PcOf(Apply(s, step), step.t);
            InFlight(has) && !InFlight(had) ==>
              step.t in s.requests && (step.StatFails? || !s.Cached(s.requests[step.t].path))
    ensures StartsFetch(s, step, path) <==> StatFailsOn(s, step, path)
  {
  }

  /** A request of this path cannot stat the cached file. */
  predicate StatFailsOn(s: State, step: Step, path: string) {
    step.StatFails? && step.t in s.requests && s.requests[step.t].path == path
  }

  /** A settled path stays so, and a fetch of it starts exactly when one of its own requests cannot stat the file. */
  lemma SettledStays(s: State, step: Step, path: string)
    requires Inv(s) && Enabled(s, step) && Settled(s, path)
    ensures StartsFetch(s, step, path) <==> StatFailsOn(s, step, path)
    ensures !StatFailsOn(s, step, path) ==> Settled(Apply(s, step), path)
  {
    OthersUnchanged(s, step);
    FileEffect(s, step, path);
    hide Apply, Enabled, InFlight, Inv, StartsFetch, StatFailsOn, State.Cached;
    if StatFailsOn(s, step, path) {
      return;
    }
    var s' := Apply(s, step);
    forall u | u in s'.requests && s'.requests[u].path == path
      ensures !InFlight(s'.requests[u].pc)
    {
      assert u != step.t ==> u in s.requests && s'.requests[u] == s.requests[u];
      assert u == step.t ==> s'.requests[u].pc == PcOf(s', u);
    }
  }

  ghost predicate NoFetchStarts(s: State, steps: seq<Step>, path: string)
    requires Possible(s, steps)
    decreases |steps|
  {
    steps == [] || (!StartsFetch(s, steps[0], path) && NoFetchStarts(Apply(s, steps[0]), steps[1..], path))
  }

  ghost predicate NoStatFails(s: State, steps: seq<Step>, path: string)
    requires Possible(s, steps)
    decreases |steps|
  {
    steps == [] || (!StatFailsOn(s, steps[0], path) && NoStatFails(Apply(s, steps[0]), steps[1..], path))
  }

  lemma {:induction false} SettledMeansNoFetch(s: State, steps: seq<Step>, path: string)
    requires Inv(s) && Possible(s, steps) && Settled(s, path)
    ensures NoFetchStarts(s, steps, path) <==> NoStatFails(s, steps, path)
    decreases |steps|
  {
    if steps != [] {
      SettledStays(s, steps[0], path);
      if !StatFailsOn(s, steps[0], path) {
        StepKeepsInv(s, steps[0]);
        SettledMeansNoFetch(Apply(s, steps[0]), steps[1..], path);
      }
    }
  }

  /**
   In any interleaving: once a non-empty store of a path completes, a later
   request starts a fetch of it exactly if the second check of some request of
   that very path cannot read the file.
   */
  lemma NoFetchAfterStore(before: seq<Step>, t: Tid, later: seq<Step>)
    requires Possible(INITIAL, before) && Enabled(After(INITIAL, before), WriteSucceeds(t))
    requires After(INITIAL, before).requests[t].pc.size > 0
    requires Possible(Apply(After(INITIAL, before), WriteSucceeds(t)), later)
    ensures var s := After(INITIAL, before);
            var s', path := Apply(s, WriteSucceeds(t)), s.requests[t].path;
            NoFetchStarts(s', later, path) <==> NoStatFails(s', later, path)
  {
    InitialInv();
    RunKeepsInv(INITIAL, before);
    var s := After(INITIAL, before);
    StoreSettles(s, t);
    StepKeepsInv(s, WriteSucceeds(t));
    SettledMeansNoFetch(Apply(s, WriteSucceeds(t)), later, s.requests[t].path);
  }

  /** The next step of a thread that waits for nobody. */
  function FreeStep(s: State, t: Tid): Step
    requires t in s.requests
  {
    var r := s.requests[t];
    match r.pc
    case FirstCheck => FirstMiss(t)
    case AskGuard => TakeGuard(t)
    case Lookup => if r.path in s.locks then FindLock(t) else MissLock(t)
    case Create => CreateLock(t)
    case LeaveGuard(_) => DropGuard(t)
    case AskLock(_) => TakeLock(t)
    case SecondCheck(_) => if s.Cached(r.path) then SecondHit(t) else SecondMiss(t)
    case Fetching(_) => FetchFails(t)
    case Storing(_, _) => OpenFails(t)
    case Filling(_, _) => WriteSucceeds(t)
    case _ => DropLock(t)
  }

  /** A thread that waits for nobody can step. */
  lemma FreeStepEnabled(s: State, t: Tid)
    requires t in s.requests && !s.requests[t].pc.Done?
    requires s.requests[t].pc.AskGuard? ==> s.guard.None?
    requires s.requests[t].pc.AskLock? ==> s.requests[t].pc.lock !in s.owners
    ensures Enabled(s, FreeStep(s, t))
  {
  }

  lemma HoldersDoNotWait(pc: Pc)
    ensures InGuard(pc) || InLock(pc) ==> !pc.Done? && !pc.AskGuard? && !pc.AskLock?
  {
  }

  /** No deadlock: an unfinished request can step itself or waits for a thread that can. */
  lemma NoDeadlock(s: State, t: Tid)
    requires Inv(s) && t in s.requests && !s.requests[t].pc.Done?
    ensures exists u <- s.requests :: !s.requests[u].pc.Done? && Enabled(s, FreeStep(s, u))
  {
    hide Enabled, FreeStep, InGuard, InLock, LockOf;
    var pc := s.requests[t].pc;
    var u := if pc.AskGuard? && s.guard.Some? then s.guard.value
             else if pc.AskLock? && pc.lock in s.owners then s.owners[pc.lock] else t;
    HoldersDoNotWait(s.requests[u].pc);
    FreeStepEnabled(s, u);
  }
}
