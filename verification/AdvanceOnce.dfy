/**
 Exactly once: the token of a task that is not FAILED leaves a running instance by an event of that task and
 in no other way, so a task marked advanced in a running instance had its event take effect exactly once.
 */
module AdvanceOnce {
  import opened Wrappers
  import opened ProcessModel
  import opened TaskTable
  import opened AdvanceProtocol
  import opened AdvanceSafety

  /** The row is not FAILED, its instance runs, and its token has left. */
  predicate Left(rows: map<TaskId, Row>, m: Insts, id: TaskId) {
    id in rows && !rows[id].state.FAILED? && IsRunning(m, rows[id].instanceId) && !Has(m, RefOf(rows[id]))
  }

  ghost predicate OnceOk(d: Db) {
    forall id :: Left(d.store.rows, d.insts, id) ==> Fired(d.fired, id) >= 1
  }

  /** From d to e no token leaves uncounted, and no count falls. */
  ghost predicate NoneSlips(d: Db, e: Db) {
    forall id :: Left(e.store.rows, e.insts, id) ==>
      Fired(e.fired, id) >= 1 || (Left(d.store.rows, d.insts, id) && Fired(e.fired, id) == Fired(d.fired, id))
  }

  lemma NoneSlipsKeeps(d: Db, e: Db)
    requires OnceOk(d) && NoneSlips(d, e)
    ensures OnceOk(e)
  {
  }

  /** A statement on the queue revives no failed task and changes no reference. */
  lemma StatementNoneSlips(d: Db, q: TaskTable.Step)
    requires DbOk(d) && Enabled(d.store, q) && !q.Create? && !q.DeleteInstance?
    ensures NoneSlips(d, WithStore(d, q))
  {
    var e := WithStore(d, q);
    StatementKeepsIds(d.store, q);
    forall id | Left(e.store.rows, e.insts, id) ensures Left(d.store.rows, d.insts, id) {
      StepOnRow(d.store, q, id);
    }
  }

  lemma CreateNoneSlips(d: Db, id: TaskId, r: Ref, taskType: string, retries: int, timeout: nat, vars: Variables)
    requires DbOk(d) && Creatable(taskType, timeout) && WaitingAt(d.insts, r)
    ensures NoneSlips(d,
            WithStore(d, Create(id, r.token, r.inst, taskType, retries, timeout, vars)).(history := d.history[id := r]))
  {
  }

  lemma StartNoneSlips(d: Db, i: InstanceId, tokens: map<TokenId, TokenStatus>)
    requires DbOk(d) && i !in d.usedInsts
    ensures NoneSlips(d, Started(d, i, tokens))
  {
    var e := Started(d, i, tokens);
    forall id | Left(e.store.rows, e.insts, id) ensures Left(d.store.rows, d.insts, id) {
      assert d.history[id] in d.usedTokens;
    }
  }

  /** Only the token that is moved leaves. */
  lemma MovedLeaves(d: Db, r: Ref, born: map<TokenId, TokenStatus>, finished: bool, id: TaskId)
    requires r.inst in d.insts && Left(d.store.rows, MoveToken(d, r, born, finished).insts, id)
    ensures RefOf(d.store.rows[id]) == r || Left(d.store.rows, d.insts, id)
  {
  }

  /** A user moves a token only when all its tasks have failed. */
  lemma UserNoneSlips(d: Db, r: Ref, born: map<TokenId, TokenStatus>, finished: bool)
    requires r.inst in d.insts && NoOpenTask(d, r)
    ensures NoneSlips(d, MoveToken(d, r, born, finished))
  {
    var e := MoveToken(d, r, born, finished);
    forall id | Left(e.store.rows, e.insts, id) ensures Left(d.store.rows, d.insts, id) {
      MovedLeaves(d, r, born, finished, id);
    }
  }

  /** An event counts for the one task of the token that it moves. */
  lemma EventNoneSlips(d: Db, t: Task, moved: bool, born: map<TokenId, TokenStatus>, finished: bool)
    requires DbOk(d) && TaskOk(d, t)
    ensures NoneSlips(d, Event(d, t, moved, born, finished))
  {
    if moved && t.ref.inst in d.insts {
      var e := Event(d, t, moved, born, finished);
      forall id | Left(e.store.rows, e.insts, id)
        ensures id == t.id || (Left(d.store.rows, d.insts, id) && Fired(e.fired, id) == Fired(d.fired, id))
      {
        MovedLeaves(d, t.ref, born, finished, id);
        assert d.history[id] == RefOf(d.store.rows[id]);
      }
    }
  }

  lemma DeleteNoneSlips(d: Db, i: InstanceId)
    ensures NoneSlips(d, WithStore(d, DeleteInstance(i)).(insts := d.insts - {i}))
  {
  }

  /** A cancel stops the instance, and changes no other. */
  lemma CancelNoneSlips(d: Db, i: InstanceId, tokens: map<TokenId, TokenStatus>)
    ensures NoneSlips(d, SaveSnapshot(d, i, InstanceState.Terminated, tokens))
  {
  }

  lemma MoveNoneSlips(h: LockKey, s: Sys, c: CallerId)
    requires Safe(h, s) && c in s.callers && !s.callers[c].AtFire?
    ensures NoneSlips(s.db, Proceed(h, s, c).db)
  {
    var d := s.db;
    assert CallerOk(h, s, c);
    match s.callers[c]
    case AtComplete(id, worker) => StatementNoneSlips(d, Complete(id, worker, map[]));
    case AtFail(id, worker) => StatementNoneSlips(d, Fail(id, worker, "timer fire failed", Some(5)));
    case AtMark(t) => StatementNoneSlips(d, MarkAdvanced(t.id));
    case CancelSave(i, tokens) => CancelNoneSlips(d, i, Kill(tokens));
    case CancelTasks(i) => StatementNoneSlips(d, CancelFor(i));
    case AtSave(_, _) => assert false;
    case _ => ReadKeepsDb(h, s, c);
  }

  lemma StepNoneSlips(h: LockKey, s: Sys, a: Act)
    requires Safe(h, s) && Can(s, a)
    ensures NoneSlips(s.db, Do(h, s, a).db)
  {
    var d := s.db;
    match a
    case Queue(q) => StatementNoneSlips(d, q);
    case StartInstance(i, tokens) => StartNoneSlips(d, i, tokens);
    case CreateTask(id, r, taskType, retries, timeout, vars) =>
      if Creatable(taskType, timeout) { CreateNoneSlips(d, id, r, taskType, retries, timeout, vars); }
    case UserAdvance(r, born, finished) => UserNoneSlips(d, r, born, finished);
    case Delete(i) => DeleteNoneSlips(d, i);
    case Move(c) => MoveNoneSlips(h, s, c);
    case Fire(c, moved, born, finished) =>
      assert CallerOk(h, s, c);
      EventNoneSlips(d, s.callers[c].t, moved, born, finished);
    case _ =>
  }

  lemma {:induction false} RunOnce(h: LockKey, s: Sys, acts: seq<Act>)
    requires Safe(h, s) && OnceOk(s.db) && Runs(h, s, acts)
    ensures Safe(h, EndOf(h, s, acts)) && OnceOk(EndOf(h, s, acts).db)
    decreases |acts|
  {
    if acts != [] {
      StepSafe(h, s, acts[0]);
      StepNoneSlips(h, s, acts[0]);
      NoneSlipsKeeps(s.db, Do(h, s, acts[0]).db);
      RunOnce(h, Do(h, s, acts[0]), acts[1..]);
    }
  }

  /** A task that is not FAILED, whose token has left its running instance, has fired once, marked or not. */
  lemma LeftHasFired(h: LockKey, s: Sys, id: TaskId)
    requires Reachable(h, s) && Left(s.db.store.rows, s.db.insts, id)
    ensures Fired(s.db.fired, id) == 1
  {
    var now, acts :| Runs(h, Initial(now), acts) && EndOf(h, Initial(now), acts) == s;
    assert Safe(h, Initial(now)) && OnceOk(Initial(now).db);
    RunOnce(h, Initial(now), acts);
  }

  /** Exactly once: in every reachable state, a task marked advanced whose instance still runs has had its event
      take effect, once. */
  lemma AdvancedExactlyOnce(h: LockKey, s: Sys, id: TaskId)
    requires Reachable(h, s) && id in s.db.store.rows && s.db.store.rows[id].advancedAt.Some?
    requires IsRunning(s.db.insts, s.db.store.rows[id].instanceId)
    ensures Fired(s.db.fired, id) == 1
  {
    AdvancedMeansSettled(h, s, id);
    LeftHasFired(h, s, id);
  }
}
