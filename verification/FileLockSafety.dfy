/** What every interleaving of the cross-process lock guarantees. */
module FileLockSafety {
  import opened Wrappers
  import opened FileLock

  /** A thread inside holds both locks exactly when none of its unlocks has failed. */
  lemma InsideHoldsIff(s: State, t: Tid)
    requires Inv(s) && s.Inside(t)
    ensures (t.process in s.gates && s.gates[t.process] == t && s.Of(t).handle.Some? &&
             s.fileLock == s.Of(t).handle) <==>
            !s.Of(t).failedUnlock
  {
    assert ThreadOk(s.Of(t));
  }

  lemma AtMostOneHolder(s: State, t: Tid, u: Tid)
    requires Inv(s) && s.Inside(t) && s.Inside(u) && !s.Of(t).failedUnlock && !s.Of(u).failedUnlock
    ensures t == u
  {
    assert ThreadOk(s.Of(t)) && ThreadOk(s.Of(u));
    assert OwnsFile(s.Of(t)) && OwnsFile(s.Of(u));
  }

  /** Mutual exclusion in every interleaving, among threads none of whose unlocks failed. */
  lemma MutualExclusion(steps: seq<Step>, t: Tid, u: Tid)
    requires Possible(INITIAL, steps)
    requires var s := After(INITIAL, steps);
             s.Inside(t) && s.Inside(u) && !s.Of(t).failedUnlock && !s.Of(u).failedUnlock
    ensures t == u
  {
    InitialInv();
    RunKeepsInv(INITIAL, steps);
    AtMostOneHolder(After(INITIAL, steps), t, u);
  }

  lemma {:induction false} FailureNeedsFailingStep(s: State, steps: seq<Step>, t: Tid)
    requires Possible(s, steps) && !s.Of(t).failedUnlock
    requires forall step <- steps :: step.UnlockFails? ==> step.t != t
    ensures !After(s, steps).Of(t).failedUnlock
    decreases |steps|
  {
    if steps != [] {
      assert steps[0] in steps;
      FailureNeedsFailingStep(Apply(s, steps[0]), steps[1..], t);
    }
  }

  /** In particular, while no unlock fails, at most one thread anywhere is inside. */
  lemma AtMostOneInside(steps: seq<Step>, t: Tid, u: Tid)
    requires Possible(INITIAL, steps) && forall step <- steps :: !step.UnlockFails?
    requires After(INITIAL, steps).Inside(t) && After(INITIAL, steps).Inside(u)
    ensures t == u
  {
    FailureNeedsFailingStep(INITIAL, steps, t);
    FailureNeedsFailingStep(INITIAL, steps, u);
    MutualExclusion(steps, t, u);
  }

  /** The holder's nested acquire is always possible and touches no gate, handle or file lock. */
  lemma NestedAcquireIsLocal(s: State, t: Tid)
    requires Inv(s) && s.Inside(t)
    ensures Enabled(s, NestedAcquire(t))
    ensures var s' := Apply(s, NestedAcquire(t));
            s'.gates == s.gates && s'.open == s.open && s'.fileLock == s.fileLock && s'.nextHandle == s.nextHandle &&
            s'.Inside(t) && s'.Of(t).nesting == s.Of(t).nesting + 1
  {
    assert ThreadOk(s.Of(t));
  }

  /** No thread ever has two handles open. */
  lemma OneHandlePerThread(s: State, h: nat, k: nat)
    requires Inv(s) && h in s.open && k in s.open && s.open[h] == s.open[k]
    ensures h == k
  {
  }

  /** A thread that is outside and not in a call owns nothing: matched releases and failed flocks leave all free. */
  lemma OutsideOwnsNothing(s: State, t: Tid)
    requires Inv(s) && s.Of(t).pc.Running? && s.Of(t).nesting == 0
    ensures t !in s.gates.Values && t !in s.open.Values
    ensures s.fileLock.Some? ==> s.open[s.fileLock.value] != t
  {
    var th := s.Of(t);
    assert ThreadOk(th) && HandleOf(th) == th.handle && !OwnsGate(th);
    forall p | p in s.gates
      ensures s.gates[p] != t
    {
      assert s.gates[p].process == p;
    }
  }

  lemma QuiescentIsFree(s: State)
    requires Inv(s) && forall t :: s.Of(t).pc.Running? && s.Of(t).nesting == 0
    ensures s.gates == map[] && s.open == map[] && s.fileLock == None
  {
    forall p | p in s.gates
      ensures false
    {
      OutsideOwnsNothing(s, s.gates[p]);
    }
    forall h | h in s.open
      ensures false
    {
      OutsideOwnsNothing(s, s.open[h]);
    }
  }

  predicate IsRegular(step: Step) {
    !step.StartAcquire? && !step.NestedAcquire? && !step.FlockFails? && !step.UnlockFails?
  }

  /** The next regular step of the thread that holds the file lock. */
  function HolderStep(s: State, t: Tid): Step {
    var th := s.Of(t);
    match th.pc
    case Locked(_) => FinishAcquire(t)
    case Unlocking => Unlock(t)
    case Closing(_) => CloseHandle(t)
    case _ => if th.depth > 1 then NestedRelease(t) else StartRelease(t)
  }

  /** The next regular step of a thread that owns a gate, or of the holder it waits for. */
  function OwnerStep(s: State, t: Tid): Step {
    match s.Of(t).pc
    case HasGate => OpenFile(t)
    case Locking(_) =>
      if s.fileLock.None? then Flock(t)
      else if s.fileLock.value in s.open then HolderStep(s, s.open[s.fileLock.value])
      else Flock(t)
    case Failing(_) => CloseAfterFailure(t)
    case GivingUp => GiveUp(t)
    case GateRelease(_) => ReleaseGate(t)
    case _ => HolderStep(s, t)
  }

  function CallStep(s: State, t: Tid): Step {
    match s.Of(t).pc
    case WaitGate => if t.process in s.gates then OwnerStep(s, s.gates[t.process]) else TakeGate(t)
    case Clearing => FinishRelease(t)
    case _ => OwnerStep(s, t)
  }

  lemma HolderCanStep(s: State, t: Tid)
    requires Inv(s) && OwnsFile(s.Of(t))
    ensures Enabled(s, HolderStep(s, t)) && IsRegular(HolderStep(s, t))
  {
    assert ThreadOk(s.Of(t));
  }

  lemma OwnerCanStep(s: State, t: Tid)
    requires Inv(s) && OwnsGate(s.Of(t))
    ensures Enabled(s, OwnerStep(s, t)) && IsRegular(OwnerStep(s, t))
  {
    assert ThreadOk(s.Of(t));
    if OwnsFile(s.Of(t)) {
      HolderCanStep(s, t);
    }
    if s.Of(t).pc.Locking? && s.fileLock.Some? {
      HolderCanStep(s, s.open[s.fileLock.value]);
    }
  }

  /** No deadlock: whenever a thread is in a call, some thread has a step that neither fails nor starts anew. */
  lemma NoDeadlock(s: State, t: Tid)
    requires Inv(s) && !s.Of(t).pc.Running?
    ensures Enabled(s, CallStep(s, t)) && IsRegular(CallStep(s, t))
  {
    assert ThreadOk(s.Of(t));
    if s.Of(t).pc.WaitGate? && t.process in s.gates {
      var u := s.gates[t.process];
      assert u.process == t.process;
      OwnerCanStep(s, u);
    } else if OwnsGate(s.Of(t)) {
      OwnerCanStep(s, t);
    }
  }
}
