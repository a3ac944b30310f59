/**
 What a failed unlock of the cross-process lock leads to.  The depth stays at
 one while gate and file are free, so the thread's next acquire looks nested
 and takes no lock.
 */
module FileLockFailure {
  import opened Wrappers
  import opened FileLock
  import opened FileLockSafety

  /** Two threads are inside at once. */
  ghost predicate Broken(s: State) {
    exists t, u :: BothInside(s, t, u)
  }

  predicate BothInside(s: State, t: Tid, u: Tid) {
    t != u && s.Inside(t) && s.Inside(u)
  }

  /** A run from this state in which no unlock fails. */
  ghost predicate IsCleanRun(s: State, steps: seq<Step>) {
    Possible(s, steps) && forall step <- steps :: !step.UnlockFails?
  }

  /** Exclusion can be lost without any further failing unlock. */
  ghost predicate CanBreak(s: State) {
    exists steps :: IsCleanRun(s, steps) && Broken(After(s, steps))
  }

  lemma OneMore(s: State, step: Step, rest: seq<Step>)
    requires Enabled(s, step) && Possible(Apply(s, step), rest)
    ensures Possible(s, [step] + rest) && After(s, [step] + rest) == After(Apply(s, step), rest)
  {
    assert ([step] + rest)[1..] == rest;
  }

  lemma BrokenNow(s: State, t: Tid, u: Tid)
    requires t != u && s.Inside(t) && s.Inside(u)
    ensures CanBreak(s)
  {
    assert BothInside(s, t, u) && IsCleanRun(s, []) && After(s, []) == s;
  }

  lemma BreaksAfter(s: State, step: Step)
    requires Enabled(s, step) && !step.UnlockFails? && CanBreak(Apply(s, step))
    ensures CanBreak(s)
  {
    hide Apply, Enabled, Broken;
    var rest :| IsCleanRun(Apply(s, step), rest) && Broken(After(Apply(s, step), rest));
    OneMore(s, step, rest);
    assert IsCleanRun(s, [step] + rest);
  }

  /** While the file lock is free, a thread on its way in can get there, whoever else is inside. */
  lemma NewcomerBreaks(s: State, t: Tid, u: Tid)
    requires Inv(s) && s.Inside(t) && t != u
    requires var pc := s.Of(u).pc;
             pc.Locked? || (s.fileLock.None? && (pc.HasGate? || pc.Locking? || (pc.WaitGate? && u.process !in s.gates)))
    ensures CanBreak(s)
    decreases match s.Of(u).pc case WaitGate => 3 case HasGate => 2 case Locking(_) => 1 case _ => 0
  {
    hide Inv, CanBreak;
    var step := match s.Of(u).pc
      case WaitGate => TakeGate(u)
      case HasGate => OpenFile(u)
      case Locking(_) => Flock(u)
      case _ => FinishAcquire(u);
    var s' := Apply(s, step);
    OthersUnchanged(s, step);
    StepKeepsInv(s, step);
    if s.Of(u).pc.Locked? {
      BrokenNow(s', t, u);
    } else {
      NewcomerBreaks(s', t, u);
    }
    BreaksAfter(s, step);
  }

  lemma {:induction false} Bound(numbers: set<nat>) returns (n: nat)
    ensures forall m <- numbers :: m < n
  {
    if numbers == {} {
      n := 0;
    } else {
      var some :| some in numbers;
      n := Bound(numbers - {some});
      if some >= n {
        n := some + 1;
      }
      forall m | m in numbers
        ensures m < n
      {
        assert m == some || m in numbers - {some};
      }
    }
  }

  /** A process that has done nothing yet. */
  lemma NewProcess(s: State) returns (u: Tid)
    ensures s.Of(u) == FRESH && u.process !in s.gates
  {
    var processes := s.gates.Keys + set t | t in s.threads :: t.process;
    var n := Bound(processes);
    u := Tid(n, 0);
    assert u in s.threads || n in s.gates ==> n in processes;
  }

  lemma FreeFileBreaks(s: State, t: Tid)
    requires Inv(s) && s.Inside(t) && s.fileLock.None?
    ensures CanBreak(s)
  {
    hide Inv, CanBreak;
    var u := NewProcess(s);
    var step := StartAcquire(u);
    OthersUnchanged(s, step);
    StepKeepsInv(s, step);
    NewcomerBreaks(Apply(s, step), t, u);
    BreaksAfter(s, step);
  }

  /** A thread inside that does not hold the file lock cannot keep others out. */
  lemma InsideWithoutLockBreaks(s: State, t: Tid)
    requires Inv(s) && s.Inside(t) && s.Of(t).failedUnlock
    ensures CanBreak(s)
  {
    hide CanBreak;
    if s.fileLock.None? {
      FreeFileBreaks(s, t);
      return;
    }
    var u := s.open[s.fileLock.value];
    assert OwnsFile(s.Of(u)) && ThreadOk(s.Of(u));
    if s.Of(u).pc.Running? {
      BrokenNow(s, t, u);
    } else if s.Of(u).pc.Locked? {
      NewcomerBreaks(s, t, u);
    } else {
      var step := if s.Of(u).pc.Unlocking? then Unlock(u) else CloseHandle(u);
      OthersUnchanged(s, step);
      StepKeepsInv(s, step);
      FreeFileBreaks(Apply(s, step), t);
      BreaksAfter(s, step);
    }
  }

  /** Whatever the thread whose unlock failed is doing, it can get inside without the lock. */
  lemma FailedThreadBreaks(s: State, t: Tid)
    requires Inv(s) && s.Of(t).failedUnlock
    ensures CanBreak(s)
    decreases match s.Of(t).pc case Closing(_) => 2 case GateRelease(_) => 1 case _ => 0
  {
    hide CanBreak;
    assert ThreadOk(s.Of(t));
    if s.Inside(t) {
      InsideWithoutLockBreaks(s, t);
      return;
    }
    var step := match s.Of(t).pc
      case Closing(_) => CloseHandle(t)
      case GateRelease(_) => ReleaseGate(t)
      case _ => NestedAcquire(t);
    StepKeepsInv(s, step);
    if step.NestedAcquire? {
      InsideWithoutLockBreaks(Apply(s, step), t);
    } else {
      FailedThreadBreaks(Apply(s, step), t);
    }
    BreaksAfter(s, step);
  }

  /**
   From any reachable state, exclusion can be lost without a further failing
   unlock exactly when some thread's unlock has failed before.
   */
  lemma CanBreakIff(steps: seq<Step>)
    requires Possible(INITIAL, steps)
    ensures var s := After(INITIAL, steps);
            CanBreak(s) <==> exists t :: s.Of(t).failedUnlock
  {
    InitialInv();
    RunKeepsInv(INITIAL, steps);
    var s := After(INITIAL, steps);
    if t :| s.Of(t).failedUnlock {
      FailedThreadBreaks(s, t);
    } else if CanBreak(s) {
      var more :| IsCleanRun(s, more) && Broken(After(s, more));
      var t, u :| BothInside(After(s, more), t, u);
      FailureNeedsFailingStep(s, more, t);
      FailureNeedsFailingStep(s, more, u);
      RunKeepsInv(s, more);
      AtMostOneHolder(After(s, more), t, u);
    }
  }

  /** So every failing unlock opens the way, at once, for two threads to be inside. */
  lemma FailedUnlockBreaksExclusion(s: State, t: Tid)
    requires Inv(s) && Enabled(s, UnlockFails(t))
    ensures CanBreak(Apply(s, UnlockFails(t)))
  {
    StepKeepsInv(s, UnlockFails(t));
    FailedThreadBreaks(Apply(s, UnlockFails(t)), t);
  }

  /** A run from this state, with no failing unlock, up to where the thread's own unlock can fail. */
  ghost predicate CanFail(s: State, t: Tid) {
    exists steps :: IsCleanRun(s, steps) && Enabled(After(s, steps), UnlockFails(t))
  }

  lemma FailsAfter(s: State, step: Step, t: Tid)
    requires Enabled(s, step) && !step.UnlockFails? && CanFail(Apply(s, step), t)
    ensures CanFail(s, t)
  {
    hide Apply, Enabled;
    var rest :| IsCleanRun(Apply(s, step), rest) && Enabled(After(Apply(s, step), rest), UnlockFails(t));
    OneMore(s, step, rest);
    assert IsCleanRun(s, [step] + rest);
  }

  /** A thread that finds gate and file lock free gets through an acquire and into a release. */
  lemma UnlockCanFail(s: State, t: Tid)
    requires var th := s.Of(t);
             th.pc.Unlocking? || (th.pc.Running? && th.depth == 1 && th.nesting > 0 && th.handle.Some?) ||
             (th.depth == 0 && th.nesting == 0 &&
              (th.pc.Locked? ||
               (s.fileLock.None? &&
                (th.pc.HasGate? || th.pc.Locking? || (th.pc in {Running, WaitGate} && t.process !in s.gates)))))
    ensures CanFail(s, t)
    decreases match s.Of(t).pc
              case Running => if s.Of(t).depth == 0 then 6 else 1
              case WaitGate => 5 case HasGate => 4 case Locking(_) => 3 case Locked(_) => 2 case _ => 0
  {
    hide CanFail;
    var th := s.Of(t);
    if th.pc.Unlocking? {
      FailsNow(s, t);
      return;
    }
    var step := match th.pc
      case Running => if th.depth == 0 then StartAcquire(t) else StartRelease(t)
      case WaitGate => TakeGate(t)
      case HasGate => OpenFile(t)
      case Locking(_) => Flock(t)
      case _ => FinishAcquire(t);
    UnlockCanFail(Apply(s, step), t);
    FailsAfter(s, step, t);
  }

  lemma FailsNow(s: State, t: Tid)
    requires Enabled(s, UnlockFails(t))
    ensures CanFail(s, t)
  {
    assert IsCleanRun(s, []) && After(s, []) == s;
  }
}
