/**
 Pending pause, resume and delete actions, bucketed by qBittorrent instance
 (`qBitrr/arss/qbit_side_effects.py`).

 A pair (instance, hash) may leave a bucket only through a successful call on
 that instance's own client.
 */
module PendingActions {
  import opened Wrappers
  import opened Retry

  type Bucket = map<string, set<string>>

  const CLIENT_RETRIES := 3

  /** The environment of one round: which clients exist and how each call on them goes. */
  datatype Round = Round(enabled: bool, connected: set<string>, calls: string -> (nat -> ClientAttempt),
                         draws: nat -> Fraction)
  {
    /** How the side effects call the client; the jitter is the default one. */
    function Backoff(): Backoff {
      Retry.Backoff.Backoff(CLIENT_RETRIES, 0.5, 3.0, 0.25, draws)
    }

    /** The retried call on this instance's client succeeds. */
    ghost predicate Succeeds(inst: string) {
      inst in connected && SucceedsWithin(calls(inst), CLIENT_RETRIES)
    }

    ghost predicate Covers(inst: string) {
      enabled && Succeeds(inst)
    }
  }

  /** An instance is served by the first, second or third call on its client, after caught failures only. */
  lemma ServedIff(round: Round, inst: string)
    ensures round.Covers(inst) <==>
            round.enabled && inst in round.connected &&
            var calls := round.calls(inst);
            calls(0).ClientOk? || (calls(0).Caught? && (calls(1).ClientOk? || (calls(1).Caught? && calls(2).ClientOk?)))
  {
    var calls := round.calls(inst);
    if calls(0).ClientOk? {
      assert SucceedsWithin(calls, CLIENT_RETRIES);
    } else if calls(0).Caught? && calls(1).ClientOk? {
      assert SucceedsWithin(calls, CLIENT_RETRIES);
    } else if calls(0).Caught? && calls(1).Caught? && calls(2).ClientOk? {
      assert SucceedsWithin(calls, CLIENT_RETRIES);
    }
  }

  function Pairs(bucket: Bucket): set<(string, string)> {
    set inst, h | inst in bucket && h in bucket[inst] :: (inst, h)
  }

  function Hashes(bucket: Bucket): set<string> {
    set inst, h | inst in bucket && h in bucket[inst] :: h
  }

  /** The non-empty part of a bucket whose instances (among `done`) were, or were not, served. */
  ghost function Part(bucket: Bucket, round: Round, done: set<string>, served: bool): Bucket {
    map inst | inst in bucket && inst in done && bucket[inst] != {} && round.Succeeds(inst) == served :: bucket[inst]
  }

  /** What a round leaves queued. */
  ghost function After(bucket: Bucket, round: Round): Bucket {
    if bucket == map[] || !round.enabled then bucket else Part(bucket, round, bucket.Keys, false)
  }

  /** What a round hands to a successful call, by instance. */
  ghost function Covered(bucket: Bucket, round: Round): Bucket {
    if bucket == map[] || !round.enabled then map[] else Part(bucket, round, bucket.Keys, true)
  }

  lemma PartStep(bucket: Bucket, round: Round, done: set<string>, inst: string, served: bool)
    requires inst in bucket && inst !in done
    ensures Part(bucket, round, done + {inst}, served) ==
            if bucket[inst] != {} && round.Succeeds(inst) == served
            then Part(bucket, round, done, served)[inst := bucket[inst]]
            else Part(bucket, round, done, served)
    ensures inst !in Part(bucket, round, done, served)
  {
  }

  lemma ExtendedPart(m: Bucket, inst: string, hashes: set<string>)
    requires inst !in m
    ensures Hashes(m[inst := hashes]) == Hashes(m) + hashes
    ensures Pairs(m[inst := hashes]) == Pairs(m) + set h | h in hashes :: (inst, h)
  {
    var m' := m[inst := hashes];
    forall h
      ensures h in Hashes(m') <==> h in Hashes(m) || h in hashes
    {
      if h in hashes {
        assert inst in m' && h in m'[inst];
      }
      if h in Hashes(m) {
        var i :| i in m && h in m[i];
        assert i in m' && h in m'[i];
      }
    }
    assert forall i <- m :: i in m' && m'[i] == m[i];
  }

  /** The two logs after one more served instance. */
  lemma ExtendedLogs(log: set<(string, string)>, ignored: set<string>, m: Bucket, inst: string, hashes: set<string>)
    requires inst !in m
    ensures log + Pairs(m) + (set h | h in hashes :: (inst, h)) == log + Pairs(m[inst := hashes])
    ensures ignored + Hashes(m) + hashes == ignored + Hashes(m[inst := hashes])
  {
    ExtendedPart(m, inst, hashes);
  }

  lemma NothingServed(bucket: Bucket, round: Round)
    ensures Pairs(map[]) == {} && Hashes(map[]) == {}
    ensures Part(bucket, round, {}, true) == map[] && Part(bucket, round, {}, false) == map[]
  {
  }

  class Worker {
    var bucket: Bucket
    var timedIgnore: set<string>
    var needsCleanup: bool
    /** Pairs passed to a successful call on the client of their instance. */
    ghost var delivered: set<(string, string)>

    constructor (bucket: Bucket)
      ensures this.bucket == bucket && timedIgnore == {} && !needsCleanup && delivered == {}
    {
      this.bucket := bucket;
      timedIgnore := {};
      needsCleanup := false;
      delivered := {};
    }

    /** The retried API call on the instance's own client, and what follows its success. */
    method CallClient(round: Round, inst: string, hashes: set<string>, addToTimedIgnore: bool) returns (ok: bool)
      modifies `delivered, `timedIgnore
      ensures ok <==> round.Succeeds(inst)
      ensures delivered == old(delivered) + if ok then set h | h in hashes :: (inst, h) else {}
      ensures timedIgnore == old(timedIgnore) + if ok && addToTimedIgnore then hashes else {}
    {
      if inst !in round.connected {
        return false;
      }
      SucceedsWithinBudget(round.calls(inst), round.Backoff());
      var outcome, made, slept := WithRetry(round.calls(inst), round.Backoff());
      ok := outcome.ClientReturned?;
      if !ok {
        return;
      }
      delivered := delivered + set h | h in hashes :: (inst, h);
      if addToTimedIgnore {
        timedIgnore := timedIgnore + hashes;
      }
    }

    /** `_mutate_hashes_by_instance` */
    method MutateHashesByInstance(round: Round, addToTimedIgnore: bool)
      modifies this
      ensures bucket == After(old(bucket), round)
      ensures delivered == old(delivered) + Pairs(Covered(old(bucket), round))
      ensures timedIgnore == old(timedIgnore) + if addToTimedIgnore then Hashes(Covered(old(bucket), round)) else {}
      ensures needsCleanup <==> old(needsCleanup) || (old(bucket) != map[] && round.enabled)
    {
      hide Part, Pairs, Hashes;
      NothingServed(bucket, round);
      if bucket == map[] || !round.enabled {
        return;
      }
      needsCleanup := true;
      var stillPending: Bucket := map[];
      var todo := bucket.Keys;
      ghost var done, served: Bucket := {}, map[];
      while todo != {}
        modifies `timedIgnore, `delivered
        invariant todo + done == bucket.Keys && todo !! done
        invariant stillPending == Part(bucket, round, done, false)
        invariant served == Part(bucket, round, done, true)
        invariant delivered == old(delivered) + Pairs(served)
        invariant timedIgnore == old(timedIgnore) + if addToTimedIgnore then Hashes(served) else {}
        decreases todo
      {
        var inst :| inst in todo;
        PartStep(bucket, round, done, inst, false);
        PartStep(bucket, round, done, inst, true);
        ExtendedLogs(old(delivered), old(timedIgnore), served, inst, bucket[inst]);
        if bucket[inst] != {} {
          var ok := CallClient(round, inst, bucket[inst], addToTimedIgnore);
          if ok {
            served := served[inst := bucket[inst]];
          } else {
            stillPending := stillPending[inst := bucket[inst]];
          }
        }
        todo, done := todo - {inst}, done + {inst};
      }
      assert done == bucket.Keys;
      bucket := stillPending;
    }
  }

  /**
   Conservation: after a round each queued pair is either still queued for the
   same instance or covered by a successful call on it, never both, and
   nothing is added.
   */
  lemma RoundConserves(bucket: Bucket, round: Round)
    ensures Pairs(After(bucket, round)) + Pairs(Covered(bucket, round)) == Pairs(bucket)
    ensures Pairs(After(bucket, round)) !! Pairs(Covered(bucket, round))
    ensures forall p :: p in Pairs(After(bucket, round)) <==> p in Pairs(bucket) && !round.Covers(p.0)
  {
    forall inst, h | (inst, h) in Pairs(bucket)
      ensures (inst, h) in Pairs(After(bucket, round)) <==> !round.Covers(inst)
      ensures (inst, h) in Pairs(Covered(bucket, round)) <==> round.Covers(inst)
    {
    }
  }

  ghost function AfterAll(bucket: Bucket, rounds: seq<Round>): Bucket {
    if rounds == [] then bucket else AfterAll(After(bucket, rounds[0]), rounds[1..])
  }

  /** Over any number of rounds a pair stays exactly until the first success on its instance. */
  lemma {:induction false} StaysUntilFirstSuccess(bucket: Bucket, rounds: seq<Round>, pair: (string, string))
    ensures pair in Pairs(AfterAll(bucket, rounds)) <==>
            pair in Pairs(bucket) && forall k :: 0 <= k < |rounds| ==> !rounds[k].Covers(pair.0)
    decreases |rounds|
  {
    if rounds != [] {
      RoundConserves(bucket, rounds[0]);
      StaysUntilFirstSuccess(After(bucket, rounds[0]), rounds[1..], pair);
      assert forall k :: 0 < k < |rounds| ==> rounds[k] == rounds[1..][k - 1];
    }
  }

  // -------------------------------------------------------------------- deletes

  /** The last call made on the instance's client ends in an error the handler does not catch. */
  ghost predicate EndsUncaught(calls: nat -> ClientAttempt) {
    exists i: nat :: i < CLIENT_RETRIES && calls(i) == Uncaught && forall j: nat :: j < i ==> calls(j) == Caught
  }

  /** Hashes in some batch whose delete succeeded. */
  function DeletedHashes(batches: Bucket, succeeded: set<string>): set<string> {
    set inst, h | inst in batches && inst in succeeded && h in batches[inst] :: h
  }

  /** `delete_hashes_per_instance`; `None` when an uncaught error escapes. */
  method DeleteHashesPerInstance(batches: Bucket, round: Round) returns (deleted: Option<set<string>>)
    ensures deleted.None? <==>
            exists inst <- batches :: batches[inst] != {} && inst in round.connected && EndsUncaught(round.calls(inst))
    ensures deleted.Some? ==>
              forall h :: h in deleted.value <==> exists inst <- batches :: h in batches[inst] && round.Succeeds(inst)
  {
    var gone: set<string> := {};
    var todo := batches.Keys;
    while todo != {}
      invariant todo <= batches.Keys
      invariant forall h :: h in gone <==>
                  exists inst <- batches :: inst !in todo && h in batches[inst] && round.Succeeds(inst)
      invariant forall inst <- batches :: inst !in todo && batches[inst] != {} && inst in round.connected ==>
                                            !EndsUncaught(round.calls(inst))
      decreases todo
    {
      var inst :| inst in todo;
      todo := todo - {inst};
      var hashes := batches[inst];
      if hashes == {} {
        continue;
      }
      if inst !in round.connected {
        continue;
      }
      SucceedsWithinBudget(round.calls(inst), round.Backoff());
      var outcome, made, slept := WithRetry(round.calls(inst), round.Backoff());
      if outcome.ClientRaised? && round.calls(inst)(made - 1) == Uncaught {
        assert EndsUncaught(round.calls(inst));
        return None;
      }
      if outcome.ClientReturned? {
        gone := gone + hashes;
      }
    }
    return Some(gone);
  }

  ghost predicate BatchesDisjoint(batches: Bucket) {
    forall a, b :: a in batches && b in batches && a != b ==> batches[a] !! batches[b]
  }

  /** Every copy of a reported hash is gone. */
  ghost predicate ReportIsExact(batches: Bucket, succeeded: set<string>) {
    forall h, inst :: h in DeletedHashes(batches, succeeded) && inst in batches && h in batches[inst] ==>
      inst in succeeded
  }

  /**
   The report is a set of hashes without instances.  It can be trusted whatever
   subset of the deletes succeeds exactly when no hash is batched for two instances.
   */
  lemma ReportExactIffDisjoint(batches: Bucket)
    ensures (forall succeeded :: ReportIsExact(batches, succeeded)) <==> BatchesDisjoint(batches)
  {
    if !BatchesDisjoint(batches) {
      var a, b :| a in batches && b in batches && a != b && !(batches[a] !! batches[b]);
      var h :| h in batches[a] && h in batches[b];
      assert h in DeletedHashes(batches, {a});
      assert !ReportIsExact(batches, {a});
    }
  }

  /** One hash batched for two instances, deleted on one: the report names it, and a copy is still there. */
  lemma SharedHashMisreported()
    ensures var batches: Bucket := map["a" := {"h"}, "b" := {"h"}];
            "h" in DeletedHashes(batches, {"a"}) && !ReportIsExact(batches, {"a"})
  {
    var batches: Bucket := map["a" := {"h"}, "b" := {"h"}];
    assert "h" in batches["a"] && "h" in batches["b"] && "b" !in {"a"};
    assert "h" in DeletedHashes(batches, {"a"});
  }
}
