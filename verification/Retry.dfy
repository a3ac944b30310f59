/**
 Retrying database calls (`with_database_retry`) and client calls (`with_retry`).

 The database loop runs "forever" and resets its attempt counter after a
 successful recovery; the contracts bound it all the same and say exactly when
 it gives up.
 */
module Retry {
  /** What one call of the protected function does. */
  datatype Attempt =
    | Success
    | Permanent   // a database error that is not retried
    | Corruption  // a retryable database error that asks for recovery
    | Transient   // any other database error
    | OtherError  // anything the handler does not catch

  datatype Recovery = CheckpointOk | RepairOk | BothFail | RecoveryRaises

  datatype Outcome = Returned | RaisedPermanent | RaisedOther | Exhausted | SleepRejected

  type Fraction = r: real | 0.0 <= r < 1.0

  /** An error the loop goes on after. */
  predicate IsRetryable(a: Attempt) {
    a.Corruption? || a.Transient?
  }

  function Max(a: int, b: int): int {
    if a >= b then a else b
  }

  function Pow2(n: nat): int {
    if n == 0 then 1 else 2 * Pow2(n - 1)
  }

  function MinReal(a: real, b: real): real {
    if a <= b then a else b
  }

  function Positive(a: real): real {
    if a >= 0.0 then a else 0.0
  }

  /** The pause before retry number `attempt`. */
  function Delay(attempt: nat, backoff: real, maxBackoff: real, jitter: real, draw: Fraction): (d: real)
    requires attempt > 0
  {
    MinReal(maxBackoff, backoff * Pow2(attempt - 1) as real) + draw * jitter
  }

  /** The first pause is the configured one, capped, plus its jitter; each further one starts from twice as much. */
  lemma DelayDoubles(attempt: nat, backoff: real, maxBackoff: real, jitter: real, draw: Fraction)
    requires attempt > 0
    ensures Delay(1, backoff, maxBackoff, jitter, draw) ==
              (if backoff <= maxBackoff then backoff else maxBackoff) + draw * jitter
    ensures Delay(attempt + 1, backoff, maxBackoff, jitter, draw) ==
              Delay(attempt, backoff + backoff, maxBackoff, jitter, draw)
  {
    assert backoff * Pow2(0) as real == backoff;
    var p := Pow2(attempt - 1) as real;
    assert Pow2(attempt) as real == 2.0 * p;
    assert backoff * (2.0 * p) == (backoff + backoff) * p;
  }

  /** The sum of the first `n` pauses, counted from one, with the draws from number `from` on. */
  function PauseSum(backoff: real, maxBackoff: real, jitter: real, draws: nat -> Fraction, from: nat, n: nat): real {
    if n == 0 then 0.0
    else
      PauseSum(backoff, maxBackoff, jitter, draws, from, n - 1) +
      Delay(n, backoff, maxBackoff, jitter, draws(from + n - 1))
  }

  lemma DelayBound(attempt: nat, backoff: real, maxBackoff: real, jitter: real, draw: Fraction)
    requires attempt > 0
    ensures Delay(attempt, backoff, maxBackoff, jitter, draw) <= maxBackoff + Positive(jitter)
  {
    JitterBound(draw, jitter);
  }

  lemma JitterBound(draw: Fraction, jitter: real)
    ensures draw * jitter <= Positive(jitter)
  {
    if jitter >= 0.0 {
      ProductOfNonNegatives(1.0 - draw, jitter);
      assert (1.0 - draw) * jitter == jitter - draw * jitter;
    } else {
      ProductOfNonNegatives(draw, -jitter);
      assert draw * -jitter == -(draw * jitter);
    }
  }

  lemma ProductOfNonNegatives(a: real, b: real)
    requires a >= 0.0 && b >= 0.0
    ensures a * b >= 0.0
  {
  }

  /** `n` times `unit`. */
  function Times(n: nat, unit: real): real {
    if n == 0 then 0.0 else Times(n - 1, unit) + unit
  }

  lemma PauseSumNext(backoff: real, maxBackoff: real, jitter: real, draws: nat -> Fraction, from: nat, n: nat)
    ensures PauseSum(backoff, maxBackoff, jitter, draws, from, 0) == 0.0
    ensures PauseSum(backoff, maxBackoff, jitter, draws, from, n + 1) ==
              PauseSum(backoff, maxBackoff, jitter, draws, from, n) +
              Delay(n + 1, backoff, maxBackoff, jitter, draws(from + n))
  {
  }

  lemma {:induction false} PauseSumAtMost(backoff: real, maxBackoff: real, jitter: real, draws: nat -> Fraction,
                                          from: nat, n: nat)
    ensures PauseSum(backoff, maxBackoff, jitter, draws, from, n) <= Times(n, maxBackoff + Positive(jitter))
  {
    if n > 0 {
      PauseSumAtMost(backoff, maxBackoff, jitter, draws, from, n - 1);
      DelayBound(n, backoff, maxBackoff, jitter, draws(from + n - 1));
    }
  }

  lemma {:induction false} TimesAdd(m: nat, n: nat, unit: real)
    ensures Times(m + n, unit) == Times(m, unit) + Times(n, unit)
  {
    if n > 0 {
      TimesAdd(m, n - 1, unit);
    }
  }

  /** All pauses together, before and after the counter was set back. */
  lemma PauseSumBound(backoff: real, maxBackoff: real, jitter: real, draws: nat -> Fraction, start: nat, n: nat)
    ensures PauseSum(backoff, maxBackoff, jitter, draws, 0, n) <= Times(n, maxBackoff + Positive(jitter))
    ensures start > 0 ==>
              PauseSum(backoff, maxBackoff, jitter, draws, 0, start - 1) +
              PauseSum(backoff, maxBackoff, jitter, draws, start - 1, n) <=
                Times(start - 1 + n, maxBackoff + Positive(jitter))
  {
    PauseSumAtMost(backoff, maxBackoff, jitter, draws, 0, n);
    if start > 0 {
      PauseSumAtMost(backoff, maxBackoff, jitter, draws, 0, start - 1);
      PauseSumAtMost(backoff, maxBackoff, jitter, draws, start - 1, n);
      TimesAdd(start - 1, n, maxBackoff + Positive(jitter));
    }
  }

  /** Where the attempt counter last started: after the recovered corruption, else at the first call. */
  ghost predicate CounterStart(calls: nat -> Attempt, made: nat, recovers: bool, start: nat) {
    start <= made &&
    if start == 0 then recovers ==> forall i: nat :: i < made ==> !calls(i).Corruption?
    else recovers && calls(start - 1).Corruption? && forall i: nat :: i < start - 1 ==> !calls(i).Corruption?
  }

  /** What holds between calls: `made` calls failed retryably, the counter stands at `made - start`. */
  ghost predicate Between(calls: nat -> Attempt, made: nat, works: bool, start: nat, recovered: bool) {
    (forall i: nat :: i < made ==> IsRetryable(calls(i))) &&
    CounterStart(calls, made, works, start) &&
    (!recovered ==> start == 0 && forall i: nat :: i < made ==> !calls(i).Corruption?) &&
    (recovered && start == 0 ==> !works)
  }

  lemma NoCallYet(calls: nat -> Attempt, works: bool)
    ensures Between(calls, 0, works, 0, false)
  {
  }

  lemma PlainFailure(calls: nat -> Attempt, made: nat, works: bool, start: nat, recovered: bool)
    requires Between(calls, made, works, start, recovered) && IsRetryable(calls(made))
    requires recovered || !calls(made).Corruption?
    ensures Between(calls, made + 1, works, start, recovered)
  {
  }

  lemma FailedRecovery(calls: nat -> Attempt, made: nat)
    requires Between(calls, made, false, 0, false) && calls(made).Corruption?
    ensures Between(calls, made + 1, false, 0, true)
  {
  }

  lemma SuccessfulRecovery(calls: nat -> Attempt, made: nat)
    requires Between(calls, made, true, 0, false) && calls(made).Corruption?
    ensures Between(calls, made + 1, true, made + 1, true)
  {
  }

  /**
   `with_database_retry`: at most `2 * max(1, retries)` calls, at most one
   recovery, a bounded total pause; every call but the last failed retryably,
   and giving up means `max(1, retries)` failures since the counter started.
   */
  method WithDatabaseRetry(calls: nat -> Attempt, recovery: Recovery, draws: nat -> Fraction,
                           retries: int, backoff: real, maxBackoff: real, jitter: real)
    returns (outcome: Outcome, made: nat, recoveries: nat, pauses: nat, slept: real, ghost start: nat)
    ensures 1 <= made <= 2 * Max(1, retries)
    ensures recoveries == if exists i: nat :: i < made && calls(i).Corruption? then 1 else 0
    ensures pauses < made && start <= pauses + 1
    ensures slept ==
              if start == 0 then PauseSum(backoff, maxBackoff, jitter, draws, 0, pauses)
              else PauseSum(backoff, maxBackoff, jitter, draws, 0, start - 1) + 1.0 +
                   PauseSum(backoff, maxBackoff, jitter, draws, start - 1, pauses + 1 - start)
    ensures slept <= Times(pauses, maxBackoff + Positive(jitter)) + 1.0
    ensures forall i: nat :: i < made - 1 ==> calls(i) == Corruption || calls(i) == Transient
    ensures outcome == Returned <==> calls(made - 1) == Success
    ensures outcome == RaisedOther <==> calls(made - 1) == OtherError
    ensures outcome == RaisedPermanent <==> calls(made - 1) == Permanent
    ensures CounterStart(calls, if outcome == Exhausted then made else made - 1,
                         recovery.CheckpointOk? || recovery.RepairOk?, start)
    ensures made - start <= Max(1, retries)
    ensures outcome == Exhausted ==> IsRetryable(calls(made - 1)) && made - start == Max(1, retries)
  {
    hide Delay, CounterStart, Times, PauseSum;
    var attempt := 0;
    var recovered := false;
    made, recoveries, pauses, slept, start := 0, 0, 0, 0.0, 0;
    ghost var works := recovery.CheckpointOk? || recovery.RepairOk?;
    NoCallYet(calls, works);
    PauseSumNext(backoff, maxBackoff, jitter, draws, 0, 0);
    while true
      invariant 0 <= attempt < Max(1, retries)
      invariant made == start + attempt && start <= Max(1, retries)
      invariant recoveries == if recovered then 1 else 0
      invariant recovered <==> exists i: nat :: i < made && calls(i).Corruption?
      invariant slept ==
                if start == 0 then PauseSum(backoff, maxBackoff, jitter, draws, 0, attempt)
                else PauseSum(backoff, maxBackoff, jitter, draws, 0, start - 1) + 1.0 +
                     PauseSum(backoff, maxBackoff, jitter, draws, start - 1, attempt)
      invariant pauses + (if start > 0 then 1 else 0) == made
      invariant Between(calls, made, works, start, recovered)
      decreases if recovered then 0 else 1, Max(1, retries) - attempt
    {
      PauseSumBound(backoff, maxBackoff, jitter, draws, start, attempt);
      var a := calls(made);
      made := made + 1;
      if a.Success? {
        return Returned, made, recoveries, pauses, slept, start;
      }
      if a.OtherError? {
        return RaisedOther, made, recoveries, pauses, slept, start;
      }
      if a.Permanent? {
        return RaisedPermanent, made, recoveries, pauses, slept, start;
      }
      if !recovered && a.Corruption? {
        recovered := true;
        recoveries := recoveries + 1;
        if recovery.CheckpointOk? || recovery.RepairOk? {
          SuccessfulRecovery(calls, made - 1);
          PauseSumNext(backoff, maxBackoff, jitter, draws, made - 1, 0);
          attempt := 0;
          slept := slept + 1.0;
          start := made;
          continue;
        }
        FailedRecovery(calls, made - 1);
      } else {
        PlainFailure(calls, made - 1, works, start, recovered);
      }
      attempt := attempt + 1;
      if attempt >= retries {
        return Exhausted, made, recoveries, pauses, slept, start;
      }
      var delay := Delay(attempt, backoff, maxBackoff, jitter, draws(pauses));
      if delay < 0.0 {
        return SleepRejected, made, recoveries, pauses, slept, start;
      }
      PauseSumNext(backoff, maxBackoff, jitter, draws, if start > 0 then start - 1 else 0, attempt - 1);
      slept := slept + delay;
      pauses := pauses + 1;
    }
  }

  datatype ClientAttempt = ClientOk | Caught | Uncaught

  datatype ClientOutcome = ClientReturned | ClientRaised | ClientSleepRejected

  /** The client call's settings and its random draws. */
  datatype Backoff = Backoff(retries: int, backoff: real, maxBackoff: real, jitter: real, draws: nat -> Fraction)
  {
    /** The call after number `i` is made: the failure is caught, the budget allows it, and the pause can be slept. */
    predicate GoesOnAfter(calls: nat -> ClientAttempt, i: nat) {
      calls(i).Caught? && i + 1 < retries && Delay(i + 1, backoff, maxBackoff, jitter, draws(i)) >= 0.0
    }

    predicate IsNonNegative() {
      backoff >= 0.0 && maxBackoff >= 0.0 && jitter >= 0.0
    }
  }

  lemma DelayIsNonNegative(attempt: nat, backoff: real, maxBackoff: real, jitter: real, draw: Fraction)
    requires attempt > 0 && backoff >= 0.0 && maxBackoff >= 0.0 && jitter >= 0.0
    ensures Delay(attempt, backoff, maxBackoff, jitter, draw) >= 0.0
  {
    Pow2IsPositive(attempt - 1);
    ProductOfNonNegatives(backoff, Pow2(attempt - 1) as real);
    ProductOfNonNegatives(draw, jitter);
  }

  lemma {:induction false} Pow2IsPositive(n: nat)
    ensures Pow2(n) > 0
  {
    if n > 0 {
      Pow2IsPositive(n - 1);
    }
  }

  /** The first call that is not a caught failure succeeds, and comes within the budget. */
  ghost predicate SucceedsWithin(calls: nat -> ClientAttempt, budget: nat) {
    exists i: nat :: i < budget && calls(i).ClientOk? && forall j: nat :: j < i ==> calls(j).Caught?
  }

  /** With settings that are not negative only the budget ends the retries. */
  lemma SucceedsWithinBudget(calls: nat -> ClientAttempt, b: Backoff)
    requires b.IsNonNegative()
    ensures Succeeds(calls, b) <==> SucceedsWithin(calls, Max(1, b.retries))
    ensures forall i: nat :: b.GoesOnAfter(calls, i) <==> calls(i).Caught? && i + 1 < b.retries
  {
    forall i: nat
      ensures b.GoesOnAfter(calls, i) <==> calls(i).Caught? && i + 1 < b.retries
    {
      DelayIsNonNegative(i + 1, b.backoff, b.maxBackoff, b.jitter, b.draws(i));
    }
    if i: nat :| calls(i).ClientOk? && forall j: nat :: j < i ==> b.GoesOnAfter(calls, j) {
      assert i > 0 ==> b.GoesOnAfter(calls, i - 1);
    }
  }

  /** Every call before the first success is followed by another. */
  ghost predicate Succeeds(calls: nat -> ClientAttempt, b: Backoff) {
    exists i: nat :: calls(i).ClientOk? && forall j: nat :: j < i ==> b.GoesOnAfter(calls, j)
  }

  lemma StopsHere(calls: nat -> ClientAttempt, b: Backoff, n: nat)
    requires !calls(n).ClientOk? && !b.GoesOnAfter(calls, n) && forall i: nat :: i < n ==> b.GoesOnAfter(calls, i)
    ensures !Succeeds(calls, b)
  {
    forall i: nat | calls(i).ClientOk?
      ensures exists j: nat :: j < i && !b.GoesOnAfter(calls, j)
    {
      assert i < n ==> b.GoesOnAfter(calls, i);
    }
  }

  /**
   `with_retry`: it returns exactly when some call succeeds before an uncaught
   error, a pause below zero or the last permitted call.
   */
  method WithRetry(calls: nat -> ClientAttempt, b: Backoff) returns (outcome: ClientOutcome, made: nat, slept: real)
    ensures 1 <= made <= Max(1, b.retries)
    ensures forall i: nat :: i < made - 1 ==> b.GoesOnAfter(calls, i)
    ensures outcome == ClientReturned <==> Succeeds(calls, b)
    ensures outcome == ClientReturned <==> calls(made - 1).ClientOk?
    ensures outcome == ClientSleepRejected <==> calls(made - 1).Caught? && made < b.retries
    ensures !b.GoesOnAfter(calls, made - 1)
    ensures slept == PauseSum(b.backoff, b.maxBackoff, b.jitter, b.draws, 0, made - 1)
  {
    made, slept := 0, 0.0;
    while true
      invariant 0 <= made < Max(1, b.retries)
      invariant forall i: nat :: i < made ==> b.GoesOnAfter(calls, i)
      invariant slept == PauseSum(b.backoff, b.maxBackoff, b.jitter, b.draws, 0, made)
      decreases Max(1, b.retries) - made
    {
      var a := calls(made);
      made := made + 1;
      if a.ClientOk? {
        return ClientReturned, made, slept;
      }
      if a.Uncaught? || made >= b.retries {
        StopsHere(calls, b, made - 1);
        return ClientRaised, made, slept;
      }
      var delay := Delay(made, b.backoff, b.maxBackoff, b.jitter, b.draws(made - 1));
      if delay < 0.0 {
        StopsHere(calls, b, made - 1);
        return ClientSleepRejected, made, slept;
      }
      slept := slept + delay;
    }
  }
}
