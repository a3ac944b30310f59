/**
 The re-entrant cross-process database lock (`qBitrr/db_lock.py`,
 `_InterProcessFileLock`) as a state machine.

 A process has one re-entrant gate shared by its threads; all processes share
 one lock file.  Each step below is one action of `acquire` or `release`; the
 steps of all threads of all processes interleave freely, and the two system
 calls on the lock file may fail.
 */
module FileLock {
  import opened Wrappers

  datatype Tid = Tid(process: nat, thread: nat)

  datatype Pc =
    | Running               // not inside a call of acquire or release
    | WaitGate              // acquire: before `_thread_gate.acquire()`
    | HasGate               // acquire: before `open`
    | Locking(file: nat)  // acquire: in `flock(LOCK_EX)`
    | Failing(file: nat)  // acquire: the flock failed, before `handle.close()`
    | GivingUp              // acquire: before `_thread_gate.release()`, about to raise
    | Locked(file: nat)   // acquire: before `_local.handle` and `_local.depth` are set
    | Unlocking             // release: in `flock(LOCK_UN)`
    | Closing(ok: bool)     // release: before `handle.close()` and `del _local.handle`
    | GateRelease(ok: bool) // release: before `_thread_gate.release()`
    | Clearing              // release: before `_local.depth` is set to zero

  /**
   `depth` and `handle` are the thread-local fields.  `nesting` counts the
   thread's completed acquires minus its releases, and `failedUnlock` records
   that one of its unlocks raised; neither is read by the program.
   */
  datatype Thread = Thread(pc: Pc, depth: nat, handle: Option<nat>, nesting: nat, failedUnlock: bool)

  const FRESH := Thread(Running, 0, None, 0, false)

  datatype State = State(
    threads: map<Tid, Thread>,
    gates: map<nat, Tid>,     // owner of each process's gate, if taken
    open: map<nat, Tid>,      // open handles and the thread that opened them
    fileLock: Option<nat>,    // handle that holds the file lock
    nextHandle: nat)
  {
    function Of(t: Tid): Thread {
      if t in threads then threads[t] else FRESH
    }

    function With(t: Tid, th: Thread): State {
      this.(threads := threads[t := th])
    }

    /** The thread is between a completed acquire and the matching release. */
    predicate Inside(t: Tid) {
      Of(t).pc.Running? && Of(t).nesting > 0
    }
  }

  const INITIAL := State(map[], map[], map[], None, 0)

  datatype Step =
    | StartAcquire(t: Tid)
    | NestedAcquire(t: Tid)
    | TakeGate(t: Tid)
    | OpenFile(t: Tid)
    | Flock(t: Tid)
    | FlockFails(t: Tid)
    | CloseAfterFailure(t: Tid)
    | GiveUp(t: Tid)
    | FinishAcquire(t: Tid)
    | NestedRelease(t: Tid)
    | StartRelease(t: Tid)
    | Unlock(t: Tid)
    | UnlockFails(t: Tid)
    | CloseHandle(t: Tid)
    | ReleaseGate(t: Tid)
    | FinishRelease(t: Tid)

  predicate Enabled(s: State, step: Step) {
    var th := s.Of(step.t);
    match step
    case StartAcquire(t) => th.pc.Running? && th.depth == 0
    case NestedAcquire(t) => th.pc.Running? && th.depth > 0
    case TakeGate(t) => th.pc.WaitGate? && t.process !in s.gates
    case OpenFile(t) => th.pc.HasGate?
    case Flock(t) => th.pc.Locking? && s.fileLock.None?
    case FlockFails(t) => th.pc.Locking?
    case CloseAfterFailure(t) => th.pc.Failing?
    case GiveUp(t) => th.pc.GivingUp?
    case FinishAcquire(t) => th.pc.Locked?
    // A release needs a matching acquire; at depth one it also needs `_local.handle`.
    case NestedRelease(t) => th.pc.Running? && th.depth > 1 && th.nesting > 0
    case StartRelease(t) => th.pc.Running? && th.depth == 1 && th.nesting > 0 && th.handle.Some?
    case Unlock(t) => th.pc.Unlocking?
    case UnlockFails(t) => th.pc.Unlocking?
    case CloseHandle(t) => th.pc.Closing? && th.handle.Some?
    case ReleaseGate(t) => th.pc.GateRelease?
    case FinishRelease(t) => th.pc.Clearing?
  }

  /** Closing a handle drops the file lock if that handle holds it. */
  function Close(s: State, h: nat): State {
    s.(open := s.open - {h}, fileLock := if s.fileLock == Some(h) then None else s.fileLock)
  }

  function Apply(s: State, step: Step): State
    requires Enabled(s, step)
  {
    var th := s.Of(step.t);
    match step
    case StartAcquire(t) => s.With(t, th.(pc := WaitGate))
    case NestedAcquire(t) => s.With(t, th.(depth := th.depth + 1, nesting := th.nesting + 1))
    case TakeGate(t) => s.With(t, th.(pc := HasGate)).(gates := s.gates[t.process := t])
    case OpenFile(t) =>
      s.With(t, th.(pc := Locking(s.nextHandle))).(open := s.open[s.nextHandle := t], nextHandle := s.nextHandle + 1)
    case Flock(t) => s.With(t, th.(pc := Locked(th.pc.file))).(fileLock := Some(th.pc.file))
    case FlockFails(t) => s.With(t, th.(pc := Failing(th.pc.file)))
    case CloseAfterFailure(t) => Close(s.With(t, th.(pc := GivingUp)), th.pc.file)
    case GiveUp(t) => s.With(t, th.(pc := Running)).(gates := s.gates - {t.process})
    case FinishAcquire(t) =>
      s.With(t, th.(pc := Running, handle := Some(th.pc.file), depth := th.depth + 1, nesting := th.nesting + 1))
    case NestedRelease(t) => s.With(t, th.(depth := th.depth - 1, nesting := th.nesting - 1))
    case StartRelease(t) => s.With(t, th.(pc := Unlocking, nesting := th.nesting - 1))
    case Unlock(t) =>
      s.With(t, th.(pc := Closing(true))).(fileLock := if s.fileLock == th.handle then None else s.fileLock)
    case UnlockFails(t) => s.With(t, th.(pc := Closing(false), failedUnlock := true))
    case CloseHandle(t) => Close(s.With(t, th.(pc := GateRelease(th.pc.ok), handle := None)), th.handle.value)
    case ReleaseGate(t) =>
      // On a failed unlock the exception skips the assignment to `_local.depth`.
      s.With(t, th.(pc := if th.pc.ok then Clearing else Running)).(gates := s.gates - {t.process})
    case FinishRelease(t) => s.With(t, th.(pc := Running, depth := 0))
  }

  ghost predicate Possible(s: State, steps: seq<Step>)
    decreases |steps|
  {
    steps == [] || (Enabled(s, steps[0]) && Possible(Apply(s, steps[0]), steps[1..]))
  }

  function After(s: State, steps: seq<Step>): State
    requires Possible(s, steps)
    decreases |steps|
  {
    if steps == [] then s else After(Apply(s, steps[0]), steps[1..])
  }

  // ------------------------------------------------------------------ invariant

  /** The thread owns its process's gate. */
  predicate OwnsGate(th: Thread) {
    match th.pc
    case Running => th.depth > 0 && !th.failedUnlock
    case WaitGate => false
    case Clearing => false
    case _ => true
  }

  /** The handle the thread has open. */
  function HandleOf(th: Thread): Option<nat> {
    match th.pc
    case Locking(h) => Some(h)
    case Failing(h) => Some(h)
    case Locked(h) => Some(h)
    case _ => th.handle
  }

  /** The thread's handle holds the file lock. */
  predicate OwnsFile(th: Thread) {
    match th.pc
    case Running => th.depth > 0 && !th.failedUnlock
    case Locked(_) => true
    case Unlocking => true
    case Closing(ok) => !ok
    case _ => false
  }

  predicate ThreadOk(th: Thread) {
    match th.pc
    case Running =>
      if th.failedUnlock then th.handle.None? && th.depth == th.nesting + 1
      else th.depth == th.nesting && (th.handle.Some? <==> th.depth > 0)
    case Unlocking => th.depth == 1 && th.nesting == 0 && th.handle.Some? && !th.failedUnlock
    case Closing(ok) => th.depth == 1 && th.nesting == 0 && th.handle.Some? && th.failedUnlock == !ok
    case GateRelease(ok) => th.depth == 1 && th.nesting == 0 && th.handle.None? && th.failedUnlock == !ok
    case Clearing => th.depth == 1 && th.nesting == 0 && th.handle.None? && !th.failedUnlock
    case _ => th.depth == 0 && th.nesting == 0 && th.handle.None? && !th.failedUnlock
  }

  ghost predicate GatesOk(s: State) {
    (forall t :: OwnsGate(s.Of(t)) <==> t.process in s.gates && s.gates[t.process] == t) &&
    (forall p <- s.gates :: s.gates[p].process == p)
  }

  ghost predicate HandlesOk(s: State) {
    (forall t :: HandleOf(s.Of(t)).Some? ==>
       HandleOf(s.Of(t)).value in s.open && s.open[HandleOf(s.Of(t)).value] == t) &&
    (forall h <- s.open :: h < s.nextHandle && HandleOf(s.Of(s.open[h])) == Some(h))
  }

  ghost predicate FileOk(s: State) {
    (forall t :: OwnsFile(s.Of(t)) ==> s.fileLock.Some? && s.fileLock == HandleOf(s.Of(t))) &&
    (s.fileLock.Some? ==> s.fileLock.value in s.open && OwnsFile(s.Of(s.open[s.fileLock.value])))
  }

  ghost predicate Inv(s: State) {
    (forall t :: ThreadOk(s.Of(t))) && GatesOk(s) && HandlesOk(s) && FileOk(s)
  }

  lemma InitialInv()
    ensures Inv(INITIAL)
  {
  }

  lemma OthersUnchanged(s: State, step: Step)
    requires Enabled(s, step)
    ensures forall u :: u != step.t ==> Apply(s, step).Of(u) == s.Of(u)
  {
  }

  lemma StepKeepsThreads(s: State, step: Step)
    requires Inv(s) && Enabled(s, step)
    ensures forall t :: ThreadOk(Apply(s, step).Of(t))
  {
    OthersUnchanged(s, step);
    assert ThreadOk(s.Of(step.t));
    assert ThreadOk(Apply(s, step).Of(step.t));
  }

  /** A step leaves the gates alone, takes a free gate, or returns an owned one. */
  lemma GateEffect(s: State, step: Step)
    requires Enabled(s, step) && ThreadOk(s.Of(step.t))
    ensures var t, s' := step.t, Apply(s, step);
            var had, has := OwnsGate(s.Of(t)), OwnsGate(s'.Of(t));
            (had == has && s'.gates == s.gates) ||
            (!had && has && t.process !in s.gates && s'.gates == s.gates[t.process := t]) ||
            (had && !has && s'.gates == s.gates - {t.process})
  {
  }

  lemma GatesFollow(s: State, s': State, t: Tid)
    requires GatesOk(s) && forall u :: u != t ==> s'.Of(u) == s.Of(u)
    requires var had, has := OwnsGate(s.Of(t)), OwnsGate(s'.Of(t));
             (had == has && s'.gates == s.gates) ||
             (!had && has && t.process !in s.gates && s'.gates == s.gates[t.process := t]) ||
             (had && !has && s'.gates == s.gates - {t.process})
    ensures GatesOk(s')
  {
  }

  /** A step leaves the handles alone, opens a fresh one, or closes the thread's own. */
  lemma HandleEffect(s: State, step: Step)
    requires Enabled(s, step) && ThreadOk(s.Of(step.t))
    ensures var t, s' := step.t, Apply(s, step);
            var had, has := HandleOf(s.Of(t)), HandleOf(s'.Of(t));
            s'.nextHandle >= s.nextHandle &&
            ((had == has && s'.open == s.open) ||
             (had.None? && has == Some(s.nextHandle) && s'.open == s.open[s.nextHandle := t] &&
              s'.nextHandle == s.nextHandle + 1) ||
             (had.Some? && has.None? && s'.open == s.open - {had.value}))
  {
  }

  lemma HandlesFollow(s: State, s': State, t: Tid)
    requires HandlesOk(s) && forall u :: u != t ==> s'.Of(u) == s.Of(u)
    requires s'.nextHandle >= s.nextHandle
    requires var had, has := HandleOf(s.Of(t)), HandleOf(s'.Of(t));
             (had == has && s'.open == s.open) ||
             (had.None? && has == Some(s.nextHandle) && s'.open == s.open[s.nextHandle := t] &&
              s'.nextHandle == s.nextHandle + 1) ||
             (had.Some? && has.None? && s'.open == s.open - {had.value})
    ensures HandlesOk(s')
  {
  }

  /** A step leaves the file lock alone, takes it when free, or returns the thread's own. */
  lemma FileEffect(s: State, step: Step)
    requires Enabled(s, step) && ThreadOk(s.Of(step.t))
    requires OwnsFile(s.Of(step.t)) ==> s.fileLock.Some? && s.fileLock == HandleOf(s.Of(step.t))
    requires HandleOf(s.Of(step.t)).Some? && s.fileLock == HandleOf(s.Of(step.t)) ==> OwnsFile(s.Of(step.t))
    ensures var t, s' := step.t, Apply(s, step);
            var th, th' := s.Of(t), s'.Of(t);
            (OwnsFile(th) == OwnsFile(th') && s'.fileLock == s.fileLock &&
             (OwnsFile(th) ==> HandleOf(th') == HandleOf(th))) ||
            (!OwnsFile(th) && OwnsFile(th') && s.fileLock.None? && s'.fileLock == HandleOf(th') && s'.fileLock.Some?) ||
            (OwnsFile(th) && !OwnsFile(th') && s'.fileLock.None?)
  {
  }

  lemma FileFollows(s: State, s': State, t: Tid)
    requires HandlesOk(s) && FileOk(s) && HandlesOk(s') && forall u :: u != t ==> s'.Of(u) == s.Of(u)
    requires var th, th' := s.Of(t), s'.Of(t);
             (OwnsFile(th) == OwnsFile(th') && s'.fileLock == s.fileLock &&
              (OwnsFile(th) ==> HandleOf(th') == HandleOf(th))) ||
             (!OwnsFile(th) && OwnsFile(th') && s.fileLock.None? && s'.fileLock == HandleOf(th') &&
              s'.fileLock.Some?) ||
             (OwnsFile(th) && !OwnsFile(th') && s'.fileLock.None?)
    ensures FileOk(s')
  {
    forall u | OwnsFile(s'.Of(u))
      ensures s'.fileLock.Some? && s'.fileLock == HandleOf(s'.Of(u))
    {
      if u != t {
        assert OwnsFile(s.Of(u)) && s.open[s.fileLock.value] == u;
      }
    }
    if s'.fileLock.Some? {
      var owner := if OwnsFile(s'.Of(t)) then t else s.open[s.fileLock.value];
      assert HandleOf(s'.Of(owner)) == s'.fileLock;
    }
  }

  lemma StepKeepsInv(s: State, step: Step)
    requires Inv(s) && Enabled(s, step)
    ensures Inv(Apply(s, step))
  {
    hide Apply, Enabled, ThreadOk, OwnsGate, OwnsFile, HandleOf;
    var s', t, th := Apply(s, step), step.t, s.Of(step.t);
    OthersUnchanged(s, step);
    StepKeepsThreads(s, step);
    assert ThreadOk(th);
    GateEffect(s, step);
    GatesFollow(s, s', t);
    HandleEffect(s, step);
    HandlesFollow(s, s', t);
    assert OwnsFile(th) ==> s.fileLock.Some? && s.fileLock == HandleOf(th);
    assert HandleOf(th).Some? && s.fileLock == HandleOf(th) ==> s.open[s.fileLock.value] == t && OwnsFile(th);
    FileEffect(s, step);
    FileFollows(s, s', t);
  }

  /** The invariant holds in every state of every interleaving. */
  lemma {:induction false} RunKeepsInv(s: State, steps: seq<Step>)
    requires Inv(s) && Possible(s, steps)
    ensures Inv(After(s, steps))
    decreases |steps|
  {
    if steps != [] {
      StepKeepsInv(s, steps[0]);
      RunKeepsInv(Apply(s, steps[0]), steps[1..]);
    }
  }
}
