/**
 Cancels in the advance protocol. When a cancel does not write between an advance's check and its event on the
 same instance, a cancelled instance is dead from the first write on: all its tokens are terminal, and no event
 for it takes effect any more.
 */
module AdvanceCancel {
  import opened Wrappers
  import opened ProcessModel
  import opened TaskTable
  import opened AdvanceProtocol
  import opened AdvanceSafety
  import TaskStore

  // ---------- Cancels serialised with advances ----------

  /** About to fire for an instance, having found it running. */
  predicate Committed(k: Caller, i: InstanceId) {
    (k.AtResult? || k.AtSave? || k.AtFire?) && k.t.ref.inst == i
  }

  /** A cancel does not write between an advance's check and its event on the same instance. */
  predicate Serial(s: Sys, a: Act) {
    a.Move? && a.c in s.callers && s.callers[a.c].CancelSave? ==>
      forall b :: b in s.callers ==> !Committed(s.callers[b], s.callers[a.c].inst)
  }

  ghost predicate SerialRuns(h: LockKey, s: Sys, acts: seq<Act>)
    decreases |acts|
  {
    acts == [] || (Can(s, acts[0]) && Serial(s, acts[0]) && SerialRuns(h, Do(h, s, acts[0]), acts[1..]))
  }

  predicate Dead(m: Insts, i: InstanceId) {
    i in m ==> m[i].state.Terminated? && forall k :: k in m[i].tokens ==> Terminal(m[i].tokens[k])
  }

  predicate Ended(m: Insts, i: InstanceId) {
    i in m && m[i].state.Terminated?
  }

  /** Nobody is about to fire for a terminated instance; between the two writes of a cancel, it is dead. */
  ghost predicate CallerClean(m: Insts, k: Caller) {
    && (forall i :: Ended(m, i) ==> !Committed(k, i))
    && (k.CancelTasks? ==> Dead(m, k.inst))
  }

  /** Terminated instances hold only finished tokens, and cancelled ones are terminated. */
  ghost predicate InstsClean(m: Insts, cancelled: set<InstanceId>) {
    && (forall i :: Ended(m, i) ==> Dead(m, i))
    && (forall i :: i in cancelled ==> Dead(m, i))
  }

  ghost predicate Clean(s: Sys) {
    && InstsClean(s.db.insts, s.db.cancelled)
    && forall b :: b in s.callers ==> CallerClean(s.db.insts, s.callers[b])
  }

  /** No instance becomes terminated, and what is dead stays dead. */
  ghost predicate KeepsEnds(m: Insts, n: Insts, used: set<InstanceId>) {
    && (forall i :: Ended(n, i) ==> Ended(m, i))
    && (forall i :: i in used && Dead(m, i) ==> Dead(n, i))
  }

  lemma KeepsEndsKeepsClean(h: LockKey, s: Sys, e: Db)
    requires Safe(h, s) && Clean(s) && KeepsEnds(s.db.insts, e.insts, s.db.usedInsts) && e.cancelled == s.db.cancelled
    ensures InstsClean(e.insts, e.cancelled)
    ensures forall b :: b in s.callers ==> CallerClean(e.insts, s.callers[b])
  {
    forall i | Ended(e.insts, i) ensures Dead(e.insts, i) {
      assert Ended(s.db.insts, i) && i in s.db.usedInsts;
    }
    forall i | i in e.cancelled ensures Dead(e.insts, i) { assert i in s.db.usedInsts; }
    forall b | b in s.callers ensures CallerClean(e.insts, s.callers[b]) {
      assert CallerOk(h, s, b) && CallerClean(s.db.insts, s.callers[b]);
    }
  }

  lemma MoveKeepsEnds(d: Db, r: Ref, born: map<TokenId, TokenStatus>, finished: bool, used: set<InstanceId>)
    requires r.inst in d.insts && !Ended(d.insts, r.inst)
    ensures KeepsEnds(d.insts, MoveToken(d, r, born, finished).insts, used)
  {
  }

  lemma FireKeepsClean(h: LockKey, s: Sys, a: Act)
    requires Safe(h, s) && Clean(s) && a.Fire? && Can(s, a)
    ensures Clean(Do(h, s, a))
  {
    var k, d := s.callers[a.c], s.db;
    var e := Event(d, k.t, a.moved, a.born, a.finished);
    assert CallerClean(d.insts, k) && Committed(k, k.t.ref.inst);
    if a.moved && k.t.ref.inst in d.insts {
      MoveKeepsEnds(d, k.t.ref, a.born, a.finished, d.usedInsts);
    }
    KeepsEndsKeepsClean(h, s, e);
    GotoClean(s, e, a.c, AtCheckRow(k.t));
  }

  lemma GotoClean(s: Sys, e: Db, c: CallerId, k: Caller)
    requires InstsClean(e.insts, e.cancelled) && CallerClean(e.insts, k)
    requires forall b :: b in s.callers ==> CallerClean(e.insts, s.callers[b])
    ensures Clean(Goto(s, e, c, k))
  {
  }

  lemma LeaveClean(s: Sys, e: Db, c: CallerId)
    requires InstsClean(e.insts, e.cancelled)
    requires forall b :: b in s.callers ==> CallerClean(e.insts, s.callers[b])
    ensures Clean(Leave(s, e, c))
  {
    assert forall b :: b in Leave(s, e, c).callers ==> b in s.callers;
  }

  /** The first write of a serialised cancel. */
  lemma CancelSaveKeepsClean(h: LockKey, s: Sys, c: CallerId)
    requires Safe(h, s) && Clean(s) && c in s.callers && s.callers[c].CancelSave? && Serial(s, Move(c))
    ensures Clean(Proceed(h, s, c))
  {
    var i, tokens, m := s.callers[c].inst, s.callers[c].tokens, s.db.insts;
    var e := SaveSnapshot(s.db, i, InstanceState.Terminated, Kill(tokens));
    assert Dead(e.insts, i);
    forall j | j != i ensures (Dead(m, j) ==> Dead(e.insts, j)) && (Ended(e.insts, j) <==> Ended(m, j)) {}
    forall b | b in s.callers ensures CallerClean(e.insts, s.callers[b]) {
      assert CallerClean(m, s.callers[b]) && !Committed(s.callers[b], i);
    }
    GotoClean(s, e, c, CancelTasks(i));
  }

  /** A waiting token is not terminal, so a terminated instance is never found worth an event. */
  lemma WaitingIsAlive(s: Sys, r: Ref)
    requires Clean(s) && WaitingAt(s.db.insts, r)
    ensures !Ended(s.db.insts, r.inst)
  {
  }

  /** A statement that is no write of a cancel leaves the instances alone, and the other callers. */
  lemma PlainMoveFrame(h: LockKey, s: Sys, c: CallerId)
    requires c in s.callers
    requires var k := s.callers[c]; !k.CancelSave? && !k.CancelTasks? && !k.AtSave?
    ensures Proceed(h, s, c).db == s.db.(store := Proceed(h, s, c).db.store)
    ensures forall b :: b in Proceed(h, s, c).callers && b != c ==>
              b in s.callers && Proceed(h, s, c).callers[b] == s.callers[b]
  {
    OthersStand(h, s, c);
    if OnlyReads(s.callers[c]) { ReadKeepsDb(h, s, c); }
  }

  lemma OthersStand(h: LockKey, s: Sys, c: CallerId)
    requires c in s.callers
    ensures forall b :: b in Proceed(h, s, c).callers && b != c ==>
              b in s.callers && Proceed(h, s, c).callers[b] == s.callers[b]
  {
  }

  /** It makes the caller ready to fire only if it was, or if it just found the token waiting. */
  lemma PlainMoveCommits(h: LockKey, s: Sys, c: CallerId)
    requires c in s.callers && c in Proceed(h, s, c).callers
    requires var k := s.callers[c]; !k.CancelSave? && !k.CancelTasks? && !k.AtSave?
    ensures var k, k' := s.callers[c], Proceed(h, s, c).callers[c];
            && !k'.CancelTasks?
            && (k'.AtResult? || k'.AtSave? || k'.AtFire? ==>
                  || ((k.AtResult? || k.AtFire?) && k'.t == k.t)
                  || (k.AtLoadTokens? && k'.t == k.t && WaitingAt(s.db.insts, k.t.ref)))
  {
  }

  lemma MoveActKeepsClean(h: LockKey, s: Sys, c: CallerId)
    requires Safe(h, s) && Clean(s) && Can(s, Move(c)) && Serial(s, Move(c))
    ensures Clean(Proceed(h, s, c))
  {
    var k, d := s.callers[c], s.db;
    assert CallerOk(h, s, c) && CallerClean(d.insts, k);
    if k.CancelSave? {
      CancelSaveKeepsClean(h, s, c);
    } else if k.CancelTasks? {
      LeaveClean(s, WithStore(d, CancelFor(k.inst)).(cancelled := d.cancelled + {k.inst}), c);
    } else {
      var s' := Proceed(h, s, c);
      PlainMoveFrame(h, s, c);
      if c in s'.callers { PlainMoveCommits(h, s, c); }
      if k.AtLoadTokens? && WaitingAt(d.insts, k.t.ref) { WaitingIsAlive(s, k.t.ref); }
      forall b | b in s'.callers ensures CallerClean(s'.db.insts, s'.callers[b]) {
        if b != c { assert CallerClean(d.insts, s.callers[b]); }
      }
    }
  }

  lemma StepKeepsClean(h: LockKey, s: Sys, a: Act)
    requires Safe(h, s) && Clean(s) && Can(s, a) && Serial(s, a)
    ensures Clean(Do(h, s, a))
  {
    var d := s.db;
    match a
    case Move(c) => MoveActKeepsClean(h, s, c);
    case Fire(_, _, _, _) => FireKeepsClean(h, s, a);
    case UserAdvance(r, born, finished) =>
      MoveKeepsEnds(d, r, born, finished, d.usedInsts);
      KeepsEndsKeepsClean(h, s, MoveToken(d, r, born, finished));
    case StartInstance(i, tokens) => KeepsEndsKeepsClean(h, s, Started(d, i, tokens));
    case Delete(i) => KeepsEndsKeepsClean(h, s, WithStore(d, DeleteInstance(i)).(insts := d.insts - {i}));
    case Crash(c) => LeaveClean(s, d, c);
    case _ => OtherStepKeepsClean(h, s, a);
  }

  lemma OtherStepKeepsClean(h: LockKey, s: Sys, a: Act)
    requires Clean(s) && Can(s, a)
    requires a.Queue? || a.CreateTask? || a.NewCompleter? || a.NewReconciler? || a.NewCancel?
    ensures Clean(Do(h, s, a))
  {
    assert Do(h, s, a).db.insts == s.db.insts && Do(h, s, a).db.cancelled == s.db.cancelled;
    forall b | b in Do(h, s, a).callers ensures CallerClean(s.db.insts, Do(h, s, a).callers[b]) {
      if b in s.callers { assert CallerClean(s.db.insts, s.callers[b]); }
    }
  }

  lemma {:induction false} RunKeepsClean(h: LockKey, s: Sys, acts: seq<Act>)
    requires Safe(h, s) && Clean(s) && SerialRuns(h, s, acts)
    ensures Runs(h, s, acts) && Safe(h, EndOf(h, s, acts)) && Clean(EndOf(h, s, acts))
    decreases |acts|
  {
    if acts != [] {
      StepSafe(h, s, acts[0]);
      StepKeepsClean(h, s, acts[0]);
      RunKeepsClean(h, Do(h, s, acts[0]), acts[1..]);
    }
  }

  /** With cancels serialised: in every run, each cancelled instance that still exists is Terminated, and
      every one of its tokens is terminal. */
  lemma CancelledIsDead(h: LockKey, now: int, acts: seq<Act>, i: InstanceId)
    requires SerialRuns(h, Initial(now), acts) && Runs(h, Initial(now), acts)
    requires i in EndOf(h, Initial(now), acts).db.cancelled
    ensures Dead(EndOf(h, Initial(now), acts).db.insts, i)
  {
    RunKeepsClean(h, Initial(now), acts);
  }

  // ---------- A dead instance stays dead ----------

  lemma StepKeepsDead(h: LockKey, s: Sys, a: Act, i: InstanceId)
    requires Safe(h, s) && Clean(s) && Can(s, a) && i in s.db.usedInsts && Dead(s.db.insts, i)
    ensures i in Do(h, s, a).db.usedInsts && Dead(Do(h, s, a).db.insts, i)
  {
    match a
    case Move(c) => MoveKeepsDead(h, s, c, i);
    case Fire(c, _, _, _) =>
      var k := s.callers[c];
      assert CallerOk(h, s, c) && CallerClean(s.db.insts, k) && Committed(k, k.t.ref.inst);
    case _ =>
  }

  lemma MoveKeepsDead(h: LockKey, s: Sys, c: CallerId, i: InstanceId)
    requires Safe(h, s) && c in s.callers && i in s.db.usedInsts && Dead(s.db.insts, i)
    ensures i in Proceed(h, s, c).db.usedInsts && Dead(Proceed(h, s, c).db.insts, i)
  {
    assert CallerOk(h, s, c);
    var k := s.callers[c];
    if !k.CancelSave? && !k.CancelTasks? { PlainMoveFrame(h, s, c); }
  }

  /** No event takes effect for a task of a dead instance. */
  lemma DeadFiresNothing(h: LockKey, s: Sys, a: Act, id: TaskId)
    requires Safe(h, s) && Clean(s) && Can(s, a)
    requires id in s.db.history && Dead(s.db.insts, s.db.history[id].inst)
    ensures var e := Do(h, s, a).db;
            Fired(e.fired, id) == Fired(s.db.fired, id) && id in e.history && e.history[id] == s.db.history[id]
  {
    if a.Fire? {
      var k := s.callers[a.c];
      assert CallerOk(h, s, a.c) && CallerClean(s.db.insts, k) && Committed(k, k.t.ref.inst);
    } else if a.Move? {
      MoveFiresNothing(h, s, a.c);
    }
  }

  lemma {:induction false} DeadAlongRun(h: LockKey, s: Sys, acts: seq<Act>, i: InstanceId)
    requires Safe(h, s) && Clean(s) && SerialRuns(h, s, acts) && Runs(h, s, acts)
    requires i in s.db.usedInsts && Dead(s.db.insts, i)
    ensures Dead(EndOf(h, s, acts).db.insts, i)
    ensures forall id :: id in s.db.history && s.db.history[id].inst == i ==>
              Fired(EndOf(h, s, acts).db.fired, id) == Fired(s.db.fired, id)
    decreases |acts|
  {
    if acts != [] {
      var s' := Do(h, s, acts[0]);
      StepSafe(h, s, acts[0]);
      StepKeepsClean(h, s, acts[0]);
      StepKeepsDead(h, s, acts[0], i);
      forall id | id in s.db.history && s.db.history[id].inst == i
        ensures id in s'.db.history && s'.db.history[id].inst == i && Fired(s'.db.fired, id) == Fired(s.db.fired, id)
      {
        DeadFiresNothing(h, s, acts[0], id);
      }
      DeadAlongRun(h, s', acts[1..], i);
    }
  }

  /** From the first write of a cancel on, no event takes effect for any task of the instance, on any serialised
      continuation, whichever reconcilers still find them. */
  lemma NoEventAfterCancel(h: LockKey, s: Sys, acts: seq<Act>, id: TaskId)
    requires Safe(h, s) && Clean(s) && SerialRuns(h, s, acts) && Runs(h, s, acts)
    requires id in s.db.history
    requires Ended(s.db.insts, s.db.history[id].inst) || s.db.history[id].inst in s.db.cancelled
    ensures Fired(EndOf(h, s, acts).db.fired, id) == Fired(s.db.fired, id)
  {
    DeadAlongRun(h, s, acts, s.db.history[id].inst);
  }

  // ---------- No task of a cancelled instance is open ----------

  ghost predicate NoneOpen(rows: map<TaskId, Row>, i: InstanceId) {
    forall id :: id in rows && rows[id].instanceId == i ==> !Open(rows[id])
  }

  ghost predicate Closed(d: Db) {
    forall i :: i in d.cancelled ==> NoneOpen(d.store.rows, i)
  }

  /** A statement on the queue opens no closed task. */
  lemma StatementKeepsNoneOpen(d: Db, q: TaskTable.Step, i: InstanceId)
    requires DbOk(d) && Enabled(d.store, q) && !q.Create? && !q.DeleteInstance?
    requires NoneOpen(d.store.rows, i)
    ensures NoneOpen(Apply(d.store, q).rows, i)
  {
    StatementKeepsIds(d.store, q);
    forall id | id in Apply(d.store, q).rows && Apply(d.store, q).rows[id].instanceId == i
      ensures !Open(Apply(d.store, q).rows[id])
    {
      StepOnRow(d.store, q, id);
    }
  }

  lemma CancelClosesTasks(w: World, i: InstanceId)
    ensures NoneOpen(Apply(w, CancelFor(i)).rows, i)
  {
  }

  lemma StatementKeepsClosed(d: Db, q: TaskTable.Step)
    requires DbOk(d) && Closed(d) && Enabled(d.store, q) && !q.Create? && !q.DeleteInstance?
    ensures Closed(WithStore(d, q))
    ensures q.CancelFor? ==> Closed(WithStore(d, q).(cancelled := d.cancelled + {q.inst}))
  {
    forall i | i in d.cancelled ensures NoneOpen(WithStore(d, q).store.rows, i) { StatementKeepsNoneOpen(d, q, i); }
    if q.CancelFor? { CancelClosesTasks(d.store, q.inst); }
  }

  /** A waiting token is never in a dead instance, so no task is created for a cancelled one. */
  lemma CreateKeepsClosed(s: Sys, a: Act)
    requires Clean(s) && Closed(s.db) && a.CreateTask? && WaitingAt(s.db.insts, a.ref)
    ensures var q := Create(a.id, a.ref.token, a.ref.inst, a.taskType, a.retries, a.timeout, a.vars);
            Closed(WithStore(s.db, q))
  {
    WaitingIsNotDead(s, a.ref);
  }

  lemma WaitingIsNotDead(s: Sys, r: Ref)
    requires Clean(s) && WaitingAt(s.db.insts, r)
    ensures r.inst !in s.db.cancelled
  {
    assert Dead(s.db.insts, r.inst) ==> Terminal(s.db.insts[r.inst].tokens[r.token]);
  }

  lemma DeleteKeepsClosed(d: Db, i: InstanceId)
    requires Closed(d)
    ensures Closed(WithStore(d, DeleteInstance(i)))
  {
    forall j | j in d.cancelled ensures NoneOpen(WithStore(d, DeleteInstance(i)).store.rows, j) {
      assert NoneOpen(d.store.rows, j);
    }
  }

  lemma MoveKeepsClosed(h: LockKey, s: Sys, c: CallerId)
    requires Safe(h, s) && Closed(s.db) && c in s.callers && !s.callers[c].AtFire?
    ensures Closed(Proceed(h, s, c).db)
  {
    var d := s.db;
    assert CallerOk(h, s, c);
    match s.callers[c]
    case AtComplete(id, worker) => StatementKeepsClosed(d, Complete(id, worker, map[]));
    case AtFail(id, worker) => StatementKeepsClosed(d, Fail(id, worker, "timer fire failed", Some(5)));
    case AtMark(t) => StatementKeepsClosed(d, MarkAdvanced(t.id));
    case CancelTasks(i) => StatementKeepsClosed(d, CancelFor(i));
    case _ => OtherMoveKeepsClosed(h, s, c);
  }

  lemma OtherMoveKeepsClosed(h: LockKey, s: Sys, c: CallerId)
    requires c in s.callers && Closed(s.db)
    requires var k := s.callers[c]; !k.AtComplete? && !k.AtFail? && !k.AtMark? && !k.CancelTasks?
    ensures Closed(Proceed(h, s, c).db)
  {
    assert Proceed(h, s, c).db.store == s.db.store && Proceed(h, s, c).db.cancelled == s.db.cancelled;
  }

  lemma StepKeepsClosed(h: LockKey, s: Sys, a: Act)
    requires Safe(h, s) && Clean(s) && Can(s, a) && Closed(s.db)
    ensures Closed(Do(h, s, a).db)
  {
    match a
    case Queue(q) => StatementKeepsClosed(s.db, q);
    case CreateTask(_, _, taskType, _, timeout, _) => if Creatable(taskType, timeout) { CreateKeepsClosed(s, a); }
    case Delete(i) => DeleteKeepsClosed(s.db, i);
    case Move(c) => MoveKeepsClosed(h, s, c);
    case _ => assert Do(h, s, a).db.store == s.db.store && Do(h, s, a).db.cancelled == s.db.cancelled;
  }

  lemma {:induction false} RunKeepsClosed(h: LockKey, s: Sys, acts: seq<Act>)
    requires Safe(h, s) && Clean(s) && Closed(s.db) && SerialRuns(h, s, acts) && Runs(h, s, acts)
    ensures Closed(EndOf(h, s, acts).db)
    decreases |acts|
  {
    if acts != [] {
      StepSafe(h, s, acts[0]);
      StepKeepsClean(h, s, acts[0]);
      StepKeepsClosed(h, s, acts[0]);
      RunKeepsClosed(h, Do(h, s, acts[0]), acts[1..]);
    }
  }

  /** With cancels serialised: once a cancel has run to its end, no task of the instance is READY or LOCKED again,
      at any point of any run. */
  lemma CancelledStaysClosed(h: LockKey, now: int, acts: seq<Act>, id: TaskId)
    requires SerialRuns(h, Initial(now), acts) && Runs(h, Initial(now), acts)
    requires var d := EndOf(h, Initial(now), acts).db; id in d.store.rows && d.store.rows[id].instanceId in d.cancelled
    ensures !Open(EndOf(h, Initial(now), acts).db.store.rows[id])
  {
    RunKeepsClosed(h, Initial(now), acts);
  }
}
