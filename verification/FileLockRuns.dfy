/** What undisturbed calls of the cross-process lock do, step by step, and that they undo each other. */
module FileLockRuns {
  import opened Wrappers
  import opened FileLock
  import opened FileLockFailure

  /** The steps of an acquire that does not nest, and of the matching release. */
  function AcquireSteps(t: Tid): seq<Step> {
    [StartAcquire(t), TakeGate(t), OpenFile(t), Flock(t), FinishAcquire(t)]
  }

  function ReleaseSteps(t: Tid): seq<Step> {
    [StartRelease(t), Unlock(t), CloseHandle(t), ReleaseGate(t), FinishRelease(t)]
  }

  function FailedAcquireSteps(t: Tid): seq<Step> {
    [StartAcquire(t), TakeGate(t), OpenFile(t), FlockFails(t), CloseAfterFailure(t), GiveUp(t)]
  }

  function FailedReleaseSteps(t: Tid): seq<Step> {
    [StartRelease(t), UnlockFails(t), CloseHandle(t), ReleaseGate(t)]
  }

  /** The thread is outside and no call or failed unlock is on record. */
  predicate IsOutside(s: State, t: Tid) {
    var th := s.Of(t);
    th.pc.Running? && th.depth == 0 && th.handle.None? && th.nesting == 0 && !th.failedUnlock
  }

  /** The thread has the gate and the given handle, and the handle is open. */
  function Entered(s: State, t: Tid, h: nat, th: Thread): State {
    s.With(t, th).(gates := s.gates[t.process := t], open := s.open[h := t], nextHandle := h + 1)
  }

  lemma ReadThread(s: State, t: Tid, th: Thread)
    ensures s.With(t, th).Of(t) == th
    ensures forall th' :: s.With(t, th).With(t, th') == s.With(t, th')
  {
    forall th'
      ensures s.With(t, th).With(t, th') == s.With(t, th')
    {
      assert s.threads[t := th][t := th'] == s.threads[t := th'];
    }
  }

  /** One step from a state in which the thread has this record. */
  ghost predicate Leads(s: State, step: Step, s': State) {
    Enabled(s, step) && Apply(s, step) == s'
  }

  lemma Then(s: State, step: Step, s': State, rest: seq<Step>)
    requires Leads(s, step, s') && Possible(s', rest)
    ensures Possible(s, [step] + rest) && After(s, [step] + rest) == After(s', rest)
  {
    OneMore(s, step, rest);
  }

  lemma Last(s: State, step: Step, s': State)
    requires Leads(s, step, s')
    ensures Possible(s, [step]) && After(s, [step]) == s'
  {
    Then(s, step, s', []);
    assert [step] + [] == [step];
  }

  lemma EnteringSteps(s: State, t: Tid)
    requires IsOutside(s, t) && t.process !in s.gates
    ensures Leads(s, StartAcquire(t), s.With(t, Thread(WaitGate, 0, None, 0, false)))
    ensures Leads(s.With(t, Thread(WaitGate, 0, None, 0, false)), TakeGate(t),
                  s.With(t, Thread(HasGate, 0, None, 0, false)).(gates := s.gates[t.process := t]))
    ensures Leads(s.With(t, Thread(HasGate, 0, None, 0, false)).(gates := s.gates[t.process := t]), OpenFile(t),
                  Entered(s, t, s.nextHandle, Thread(Locking(s.nextHandle), 0, None, 0, false)))
  {
    ReadThread(s, t, Thread(WaitGate, 0, None, 0, false));
    ReadThread(s, t, Thread(HasGate, 0, None, 0, false));
  }

  /** Up to the lock file: the gate is taken and a new handle is open. */
  lemma OpensFile(s: State, t: Tid, rest: seq<Step>)
    requires IsOutside(s, t) && t.process !in s.gates
    requires Possible(Entered(s, t, s.nextHandle, Thread(Locking(s.nextHandle), 0, None, 0, false)), rest)
    ensures var steps := [StartAcquire(t), TakeGate(t), OpenFile(t)] + rest;
            Possible(s, steps) &&
            After(s, steps) ==
              After(Entered(s, t, s.nextHandle, Thread(Locking(s.nextHandle), 0, None, 0, false)), rest)
  {
    hide Leads, Entered, IsOutside, Possible, After;
    var s1 := s.With(t, Thread(WaitGate, 0, None, 0, false));
    var s2 := s.With(t, Thread(HasGate, 0, None, 0, false)).(gates := s.gates[t.process := t]);
    var s3 := Entered(s, t, s.nextHandle, Thread(Locking(s.nextHandle), 0, None, 0, false));
    EnteringSteps(s, t);
    Then(s2, OpenFile(t), s3, rest);
    Then(s1, TakeGate(t), s2, [OpenFile(t)] + rest);
    Then(s, StartAcquire(t), s1, [TakeGate(t)] + ([OpenFile(t)] + rest));
    assert [StartAcquire(t)] + ([TakeGate(t)] + ([OpenFile(t)] + rest)) ==
           [StartAcquire(t), TakeGate(t), OpenFile(t)] + rest;
  }

  lemma LockingSteps(s: State, t: Tid, h: nat)
    requires s.fileLock.None?
    ensures Leads(Entered(s, t, h, Thread(Locking(h), 0, None, 0, false)), Flock(t),
                  Entered(s, t, h, Thread(Locked(h), 0, None, 0, false)).(fileLock := Some(h)))
    ensures Leads(Entered(s, t, h, Thread(Locked(h), 0, None, 0, false)).(fileLock := Some(h)), FinishAcquire(t),
                  Entered(s, t, h, Thread(Running, 1, Some(h), 1, false)).(fileLock := Some(h)))
  {
    ReadThread(s, t, Thread(Locking(h), 0, None, 0, false));
    ReadThread(s, t, Thread(Locked(h), 0, None, 0, false));
  }

  /** With gate and file lock free, an acquire gets both. */
  lemma AcquireEnters(s: State, t: Tid)
    requires IsOutside(s, t) && t.process !in s.gates && s.fileLock.None?
    ensures var h := s.nextHandle;
            Possible(s, AcquireSteps(t)) &&
            After(s, AcquireSteps(t)) ==
              Entered(s, t, h, Thread(Running, 1, Some(h), 1, false)).(fileLock := Some(h))
  {
    hide Leads, IsOutside, Possible, After;
    var h := s.nextHandle;
    var s1 := Entered(s, t, h, Thread(Locking(h), 0, None, 0, false));
    var s2 := Entered(s, t, h, Thread(Locked(h), 0, None, 0, false)).(fileLock := Some(h));
    var s3 := Entered(s, t, h, Thread(Running, 1, Some(h), 1, false)).(fileLock := Some(h));
    LockingSteps(s, t, h);
    Last(s2, FinishAcquire(t), s3);
    Then(s1, Flock(t), s2, [FinishAcquire(t)]);
    assert [Flock(t)] + [FinishAcquire(t)] == [Flock(t), FinishAcquire(t)];
    OpensFile(s, t, [Flock(t), FinishAcquire(t)]);
    assert [StartAcquire(t), TakeGate(t), OpenFile(t)] + [Flock(t), FinishAcquire(t)] == AcquireSteps(t);
  }

  lemma FailingSteps(s: State, t: Tid, h: nat)
    requires t.process !in s.gates && h !in s.open && s.fileLock != Some(h)
    ensures Leads(Entered(s, t, h, Thread(Locking(h), 0, None, 0, false)), FlockFails(t),
                  Entered(s, t, h, Thread(Failing(h), 0, None, 0, false)))
    ensures var s3 := s.With(t, Thread(GivingUp, 0, None, 0, false)).(
                        gates := s.gates[t.process := t], nextHandle := h + 1);
            Leads(Entered(s, t, h, Thread(Failing(h), 0, None, 0, false)), CloseAfterFailure(t), s3) &&
            Leads(s3, GiveUp(t), s.With(t, FRESH).(nextHandle := h + 1))
  {
    ReadThread(s, t, Thread(Locking(h), 0, None, 0, false));
    ReadThread(s, t, Thread(Failing(h), 0, None, 0, false));
    ReadThread(s, t, Thread(GivingUp, 0, None, 0, false));
    assert s.open[h := t] - {h} == s.open;
    assert s.gates[t.process := t] - {t.process} == s.gates;
  }

  /** An acquire whose `flock` fails leaves gate, handles and file lock as they were, and the thread outside. */
  lemma FailedAcquireRestores(s: State, t: Tid)
    requires IsOutside(s, t) && t.process !in s.gates && s.nextHandle !in s.open && s.fileLock != Some(s.nextHandle)
    ensures Possible(s, FailedAcquireSteps(t))
    ensures After(s, FailedAcquireSteps(t)) == s.With(t, FRESH).(nextHandle := s.nextHandle + 1)
  {
    hide Leads, IsOutside, Possible, After;
    var h := s.nextHandle;
    var s1 := Entered(s, t, h, Thread(Locking(h), 0, None, 0, false));
    var s2 := Entered(s, t, h, Thread(Failing(h), 0, None, 0, false));
    var s3 := s.With(t, Thread(GivingUp, 0, None, 0, false)).(gates := s.gates[t.process := t], nextHandle := h + 1);
    FailingSteps(s, t, h);
    Last(s3, GiveUp(t), s.With(t, FRESH).(nextHandle := h + 1));
    Then(s2, CloseAfterFailure(t), s3, [GiveUp(t)]);
    Then(s1, FlockFails(t), s2, [CloseAfterFailure(t), GiveUp(t)]);
    assert [CloseAfterFailure(t)] + [GiveUp(t)] == [CloseAfterFailure(t), GiveUp(t)];
    assert [FlockFails(t)] + [CloseAfterFailure(t), GiveUp(t)] == [FlockFails(t), CloseAfterFailure(t), GiveUp(t)];
    OpensFile(s, t, [FlockFails(t), CloseAfterFailure(t), GiveUp(t)]);
    assert [StartAcquire(t), TakeGate(t), OpenFile(t)] + [FlockFails(t), CloseAfterFailure(t), GiveUp(t)] ==
           FailedAcquireSteps(t);
  }

  /** The file lock, or everything, given back. */
  function Unlocked(s: State, t: Tid, th: Thread): State {
    s.With(t, th).(fileLock := None)
  }

  function Closed(s: State, t: Tid, h: nat, th: Thread): State {
    s.With(t, th).(open := s.open - {h}, fileLock := None)
  }

  function Freed(s: State, t: Tid, h: nat, th: Thread): State {
    s.With(t, th).(gates := s.gates - {t.process}, open := s.open - {h}, fileLock := None)
  }

  lemma UnlockingSteps(s: State, t: Tid, h: nat)
    requires s.Of(t) == Thread(Running, 1, Some(h), 1, false) && s.fileLock == Some(h)
    ensures Leads(s, StartRelease(t), s.With(t, Thread(Unlocking, 1, Some(h), 0, false)))
    ensures Leads(s.With(t, Thread(Unlocking, 1, Some(h), 0, false)), Unlock(t),
                  Unlocked(s, t, Thread(Closing(true), 1, Some(h), 0, false)))
    ensures Leads(s.With(t, Thread(Unlocking, 1, Some(h), 0, false)), UnlockFails(t),
                  s.With(t, Thread(Closing(false), 1, Some(h), 0, true)))
  {
    ReadThread(s, t, Thread(Unlocking, 1, Some(h), 0, false));
  }

  lemma ClosingSteps(s: State, t: Tid, h: nat)
    requires s.fileLock == Some(h)
    ensures Leads(Unlocked(s, t, Thread(Closing(true), 1, Some(h), 0, false)), CloseHandle(t),
                  Closed(s, t, h, Thread(GateRelease(true), 1, None, 0, false)))
    ensures Leads(s.With(t, Thread(Closing(false), 1, Some(h), 0, true)), CloseHandle(t),
                  Closed(s, t, h, Thread(GateRelease(false), 1, None, 0, true)))
  {
    ReadThread(s, t, Thread(Closing(true), 1, Some(h), 0, false));
    ReadThread(s, t, Thread(Closing(false), 1, Some(h), 0, true));
  }

  lemma FreeingSteps(s: State, t: Tid, h: nat)
    ensures Leads(Closed(s, t, h, Thread(GateRelease(true), 1, None, 0, false)), ReleaseGate(t),
                  Freed(s, t, h, Thread(Clearing, 1, None, 0, false)))
    ensures Leads(Closed(s, t, h, Thread(GateRelease(false), 1, None, 0, true)), ReleaseGate(t),
                  Freed(s, t, h, Thread(Running, 1, None, 0, true)))
    ensures Leads(Freed(s, t, h, Thread(Clearing, 1, None, 0, false)), FinishRelease(t), Freed(s, t, h, FRESH))
  {
    ReadThread(s, t, Thread(GateRelease(true), 1, None, 0, false));
    ReadThread(s, t, Thread(GateRelease(false), 1, None, 0, true));
    ReadThread(s, t, Thread(Clearing, 1, None, 0, false));
  }

  /** The holder's outermost release frees the file lock, the handle and the gate. */
  lemma ReleaseFrees(s: State, t: Tid, h: nat)
    requires s.Of(t) == Thread(Running, 1, Some(h), 1, false) && s.fileLock == Some(h)
    ensures Possible(s, ReleaseSteps(t))
    ensures After(s, ReleaseSteps(t)) ==
              s.With(t, FRESH).(gates := s.gates - {t.process}, open := s.open - {h}, fileLock := None)
  {
    hide Leads, Unlocked, Closed, Possible, After;
    var s1 := s.With(t, Thread(Unlocking, 1, Some(h), 0, false));
    var s2 := Unlocked(s, t, Thread(Closing(true), 1, Some(h), 0, false));
    var s3 := Closed(s, t, h, Thread(GateRelease(true), 1, None, 0, false));
    var s4 := Freed(s, t, h, Thread(Clearing, 1, None, 0, false));
    UnlockingSteps(s, t, h);
    ClosingSteps(s, t, h);
    FreeingSteps(s, t, h);
    Last(s4, FinishRelease(t), Freed(s, t, h, FRESH));
    Then(s3, ReleaseGate(t), s4, [FinishRelease(t)]);
    Then(s2, CloseHandle(t), s3, [ReleaseGate(t), FinishRelease(t)]);
    Then(s1, Unlock(t), s2, [CloseHandle(t), ReleaseGate(t), FinishRelease(t)]);
    Then(s, StartRelease(t), s1, [Unlock(t), CloseHandle(t), ReleaseGate(t), FinishRelease(t)]);
    assert [ReleaseGate(t)] + [FinishRelease(t)] == [ReleaseGate(t), FinishRelease(t)];
    assert [CloseHandle(t)] + [ReleaseGate(t), FinishRelease(t)] == [CloseHandle(t), ReleaseGate(t), FinishRelease(t)];
    assert [Unlock(t)] + [CloseHandle(t), ReleaseGate(t), FinishRelease(t)] == ReleaseSteps(t)[1..];
    assert [StartRelease(t)] + [Unlock(t), CloseHandle(t), ReleaseGate(t), FinishRelease(t)] == ReleaseSteps(t);
  }

  /** If the unlock raises, everything is freed all the same, but the thread's depth stays at one. */
  lemma FailedReleaseFrees(s: State, t: Tid, h: nat)
    requires s.Of(t) == Thread(Running, 1, Some(h), 1, false) && s.fileLock == Some(h)
    ensures Possible(s, FailedReleaseSteps(t))
    ensures After(s, FailedReleaseSteps(t)) ==
              s.With(t, Thread(Running, 1, None, 0, true)).(
                gates := s.gates - {t.process}, open := s.open - {h}, fileLock := None)
  {
    hide Leads, Unlocked, Closed, Possible, After;
    var s1 := s.With(t, Thread(Unlocking, 1, Some(h), 0, false));
    var s2 := s.With(t, Thread(Closing(false), 1, Some(h), 0, true));
    var s3 := Closed(s, t, h, Thread(GateRelease(false), 1, None, 0, true));
    UnlockingSteps(s, t, h);
    ClosingSteps(s, t, h);
    FreeingSteps(s, t, h);
    Last(s3, ReleaseGate(t), Freed(s, t, h, Thread(Running, 1, None, 0, true)));
    Then(s2, CloseHandle(t), s3, [ReleaseGate(t)]);
    Then(s1, UnlockFails(t), s2, [CloseHandle(t), ReleaseGate(t)]);
    Then(s, StartRelease(t), s1, [UnlockFails(t), CloseHandle(t), ReleaseGate(t)]);
    assert [CloseHandle(t)] + [ReleaseGate(t)] == [CloseHandle(t), ReleaseGate(t)];
    assert [UnlockFails(t)] + [CloseHandle(t), ReleaseGate(t)] == [UnlockFails(t), CloseHandle(t), ReleaseGate(t)];
    assert [StartRelease(t)] + [UnlockFails(t), CloseHandle(t), ReleaseGate(t)] == FailedReleaseSteps(t);
  }

  lemma NestingSteps(s: State, t: Tid)
    requires s.Of(t).pc.Running? && s.Of(t).depth > 0 && t in s.threads
    ensures var th := s.Of(t);
            var s1 := s.With(t, th.(depth := th.depth + 1, nesting := th.nesting + 1));
            Leads(s, NestedAcquire(t), s1) && Leads(s1, NestedRelease(t), s)
  {
    var th := s.Of(t);
    ReadThread(s, t, th.(depth := th.depth + 1, nesting := th.nesting + 1));
    assert s.threads[t := th] == s.threads;
  }

  /** Whoever is inside can nest as deep as it likes; a nested release undoes a nested acquire. */
  lemma NestedRoundTrip(s: State, t: Tid)
    requires s.Of(t).pc.Running? && s.Of(t).depth > 0 && t in s.threads
    ensures Possible(s, [NestedAcquire(t), NestedRelease(t)]) && After(s, [NestedAcquire(t), NestedRelease(t)]) == s
  {
    hide Leads, Possible, After;
    var th := s.Of(t);
    var s1 := s.With(t, th.(depth := th.depth + 1, nesting := th.nesting + 1));
    NestingSteps(s, t);
    Last(s1, NestedRelease(t), s);
    Then(s, NestedAcquire(t), s1, [NestedRelease(t)]);
    assert [NestedAcquire(t)] + [NestedRelease(t)] == [NestedAcquire(t), NestedRelease(t)];
  }

  /**
   In every reachable state, an acquire that finds gate and file lock free and
   the release after it restore everything but the handle number; in between
   the thread is inside.
   */
  lemma AcquireReleaseRoundTrip(s: State, t: Tid)
    requires Inv(s) && IsOutside(s, t) && t.process !in s.gates && s.fileLock.None?
    ensures Possible(s, AcquireSteps(t)) && After(s, AcquireSteps(t)).Inside(t)
    ensures Possible(After(s, AcquireSteps(t)), ReleaseSteps(t))
    ensures After(After(s, AcquireSteps(t)), ReleaseSteps(t)) == s.With(t, FRESH).(nextHandle := s.nextHandle + 1)
  {
    hide AcquireSteps, ReleaseSteps, GatesOk, FileOk;
    var h := s.nextHandle;
    AcquireEnters(s, t);
    ReadThread(s, t, Thread(Running, 1, Some(h), 1, false));
    ReleaseFrees(After(s, AcquireSteps(t)), t, h);
    assert h !in s.open;
    assert s.open[h := t] - {h} == s.open;
    assert s.gates[t.process := t] - {t.process} == s.gates;
  }
}
