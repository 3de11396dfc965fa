/**
 What single statements of the advance protocol mean for whoever waits on them: an attempt that cannot go on leaves
 everything as it is, a failed firing comes back, and a cancel ends what has not ended and nothing else.
 */
module AdvanceEffects {
  import opened Wrappers
  import opened ProcessModel
  import opened TaskTable
  import opened AdvanceProtocol
  import TaskEffects

  /** The caller is gone, and nothing else has changed. */
  ghost predicate GoneQuietly(s: Sys, s': Sys, c: CallerId) {
    && s'.db == s.db && c !in s'.callers
    && (forall b :: b != c ==> (b in s'.callers <==> b in s.callers))
    && (forall b :: b != c && b in s.callers ==> s'.callers[b] == s.callers[b])
    && (forall l :: l in s.locks && s.locks[l] != c ==> l in s'.locks && s'.locks[l] == s.locks[l])
    && (forall l :: l in s'.locks ==> l in s.locks && s'.locks[l] == s.locks[l] != c)
  }

  /** An attempt that finds its lock taken, or behind it the task gone or marked, or its token still there after the
      event, whatever its status, does nothing further. */
  lemma NothingToAdvance(h: LockKey, s: Sys, c: CallerId)
    requires c in s.callers
    requires var k, rows := s.callers[c], s.db.store.rows;
             || (k.AtTryLock? && h(k.t.id) in s.locks)
             || (k.AtIsAdvanced? && (k.t.id in rows ==> rows[k.t.id].advancedAt.Some?))
             || (k.AtCheckTokens? && Has(s.db.insts, k.t.ref))
    ensures GoneQuietly(s, Proceed(h, s, c), c)
  {
  }

  /** So does a cancel of an instance that is gone, or was not running when it was read. */
  lemma NothingToCancel(h: LockKey, s: Sys, c: CallerId)
    requires c in s.callers
    requires var k := s.callers[c];
             || (k.CancelLoad? && k.inst !in s.db.insts)
             || (k.CancelTokens? && k.seen != Running)
    ensures GoneQuietly(s, Proceed(h, s, c), c)
  {
  }

  /** A cancel ends the tokens that have not ended, and keeps those that have. */
  lemma KilledTokens(tokens: map<TokenId, TokenStatus>, k: TokenId)
    ensures k in Kill(tokens) <==> k in tokens
    ensures k in tokens ==>
              Kill(tokens)[k] == if tokens[k].Completed? then TokenStatus.Completed else TokenStatus.Terminated
  {
  }

  /** A timer whose completion was refused is given back by its worker: with retries left it can be taken again
      exactly five seconds later. */
  lemma FailedFiringComesBack(h: LockKey, s: Sys, c: CallerId, wait: nat, f: Filter)
    requires c in s.callers && s.callers[c].AtFail?
    requires TaskEffects.Holds(s.db.store, s.callers[c].id, s.callers[c].worker)
    requires s.db.store.rows[s.callers[c].id].retries >= 2
    ensures var id, e := s.callers[c].id, Proceed(h, s, c);
            && c !in e.callers
            && (id in EligibleIds(Apply(e.db.store, Tick(wait)), f) <==>
                  Admits(f, s.db.store.rows[id].taskType) && wait >= 5)
  {
    var k := s.callers[c];
    TaskEffects.FailedComesBack(s.db.store, k.id, k.worker, "timer fire failed", Some(5), wait, f);
  }

  /** Completion goes on to the advance exactly if the worker holds a live lease, and otherwise gives the task back. */
  lemma CompletionDecides(h: LockKey, s: Sys, c: CallerId)
    requires c in s.callers && s.callers[c].AtComplete?
    ensures var k, s' := s.callers[c], Proceed(h, s, c);
            if Completable(s.db.store, k.id, k.worker)
            then s'.callers[c] == AtGet(k.id, k.worker) && s'.db.store.rows[k.id].state.COMPLETED?
            else s'.callers[c] == AtFail(k.id, k.worker) && s'.db == s.db
  {
  }

  /** A deletion takes the instance and all its tasks away, and nothing else. */
  lemma DeletionTakes(h: LockKey, s: Sys, i: InstanceId, j: InstanceId, id: TaskId)
    ensures var e := Do(h, s, Delete(i)).db;
            && i !in e.insts && (id in e.store.rows ==> e.store.rows[id].instanceId != i)
            && (j != i ==> (j in e.insts <==> j in s.db.insts) && (j in e.insts ==> e.insts[j] == s.db.insts[j]))
            && (id in s.db.store.rows && s.db.store.rows[id].instanceId != i ==>
                  id in e.store.rows && e.store.rows[id] == s.db.store.rows[id])
  {
  }
}
