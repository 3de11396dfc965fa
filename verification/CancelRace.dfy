/**
 Why cancels must be serialised with advances: without that, a run exists after which a cancelled instance
 is Terminated and still holds a waiting token, and one after which it has an open task. Both are exact: the
 instance stays dead, and its tasks stay closed, if and only if the cancel's first write was serialised.
 */
module CancelRace {
  import opened Wrappers
  import opened ProcessModel
  import opened TaskTable
  import opened AdvanceProtocol
  import opened AdvanceSafety
  import opened AdvanceCancel

  // ---------- Exactly when a cancel is safe ----------

  /** The first write of a cancel keeps the state clean exactly when it is serialised. */
  lemma CleanKeptExactly(h: LockKey, s: Sys, c: CallerId)
    requires Safe(h, s) && Clean(s) && c in s.callers && s.callers[c].CancelSave?
    ensures Clean(Do(h, s, Move(c))) <==> Serial(s, Move(c))
  {
    var i, s' := s.callers[c].inst, Do(h, s, Move(c));
    if Serial(s, Move(c)) { CancelSaveKeepsClean(h, s, c); }
    if b :| b in s.callers && Committed(s.callers[b], i) {
      assert Ended(s'.db.insts, i) && s'.callers[b] == s.callers[b];
      assert Clean(s') ==> CallerClean(s'.db.insts, s'.callers[b]);
    }
  }

  /** The rest of an advance that is committed, up to and including its event. */
  function FireOut(k: Caller, b: CallerId, born: TokenId): seq<Act> {
    (if k.AtResult? then [Move(b)] else []) + [Fire(b, true, map[born := Waiting], false)]
  }

  lemma FireOutRuns(h: LockKey, s: Sys, b: CallerId, k: TokenId)
    requires b in s.callers && (s.callers[b].AtResult? || s.callers[b].AtFire?)
    requires var t := s.callers[b].t;
             && t.ref.inst in s.db.insts && Ref(t.ref.inst, k) !in s.db.usedTokens
             && (t.id in s.db.store.rows ==> s.db.store.rows[t.id].result == map[])
    ensures var i, acts := s.callers[b].t.ref.inst, FireOut(s.callers[b], b, k);
            && Runs(h, s, acts) && SerialRuns(h, s, acts)
            && var e := EndOf(h, s, acts);
               && WaitingAt(e.db.insts, Ref(i, k)) && (Ended(s.db.insts, i) ==> Ended(e.db.insts, i))
               && e.db.store == s.db.store && e.db.history == s.db.history
               && forall c :: c in s.callers && c != b ==> c in e.callers && e.callers[c] == s.callers[c]
    decreases if s.callers[b].AtResult? then 1 else 0
  {
    var acts := FireOut(s.callers[b], b, k);
    var s' := Do(h, s, acts[0]);
    if s.callers[b].AtResult? {
      assert acts[1..] == FireOut(s'.callers[b], b, k);
      FireOutRuns(h, s', b, k);
    } else {
      assert acts[1..] == [];
      assert EndOf(h, s, acts) == s';
    }
  }

  /** Wherever a cancel writes between the check and the event of an advance on the same instance, the event
      can leave a waiting token in the terminated instance. */
  lemma UnserialisedCancelLeaks(h: LockKey, s: Sys, c: CallerId, b: CallerId, k: TokenId)
    requires Safe(h, s) && c in s.callers && s.callers[c].CancelSave?
    requires b in s.callers && Committed(s.callers[b], s.callers[c].inst)
    requires Ref(s.callers[c].inst, k) !in s.db.usedTokens
    ensures var acts := [Move(c)] + FireOut(s.callers[b], b, k);
            && Runs(h, s, acts)
            && var m := EndOf(h, s, acts).db.insts;
               Ended(m, s.callers[c].inst) && WaitingAt(m, Ref(s.callers[c].inst, k))
  {
    assert CallerOk(h, s, b);
    var acts := [Move(c)] + FireOut(s.callers[b], b, k);
    assert acts[1..] == FireOut(s.callers[b], b, k);
    FireOutRuns(h, Do(h, s, Move(c)), b, k);
  }

  /** A name longer than every used one. */
  lemma LongerName(used: set<Ref>) returns (k: TokenId)
    ensures forall r :: r in used ==> |r.token| < |k|
    decreases used
  {
    if used == {} {
      k := "";
    } else {
      var r :| r in used;
      var shorter := LongerName(used - {r});
      k := shorter + r.token + "u";
    }
  }

  /** On every serialised continuation the instance is gone, or Terminated with every token terminal. */
  ghost predicate StaysDead(h: LockKey, s: Sys, i: InstanceId) {
    forall acts :: SerialRuns(h, s, acts) && Runs(h, s, acts) ==> Dead(EndOf(h, s, acts).db.insts, i)
  }

  /** The outcome of a cancel's first write: the instance stays dead if and only if no advance stands between its
      check and its event on it. */
  lemma DeadExactly(h: LockKey, s: Sys, c: CallerId)
    requires Safe(h, s) && Clean(s) && c in s.callers && s.callers[c].CancelSave?
    ensures StaysDead(h, Do(h, s, Move(c)), s.callers[c].inst) <==> Serial(s, Move(c))
  {
    var i, s' := s.callers[c].inst, Do(h, s, Move(c));
    assert CallerOk(h, s, c);
    if Serial(s, Move(c)) {
      StepSafe(h, s, Move(c));
      CancelSaveKeepsClean(h, s, c);
      forall acts | SerialRuns(h, s', acts) && Runs(h, s', acts) ensures Dead(EndOf(h, s', acts).db.insts, i) {
        DeadAlongRun(h, s', acts, i);
      }
    } else {
      var b :| b in s.callers && Committed(s.callers[b], i);
      assert CallerOk(h, s, b);
      var k := LongerName(s.db.usedTokens);
      FireOutRuns(h, s', b, k);
      assert !Dead(EndOf(h, s', FireOut(s'.callers[b], b, k)).db.insts, i);
    }
  }

  // ---------- Exactly when no task opens ----------

  lemma {:induction false} SerialSnoc(h: LockKey, s: Sys, acts: seq<Act>, a: Act)
    requires SerialRuns(h, s, acts) && Runs(h, s, acts)
    requires Can(EndOf(h, s, acts), a) && Serial(EndOf(h, s, acts), a)
    ensures SerialRuns(h, s, acts + [a]) && Runs(h, s, acts + [a])
    ensures EndOf(h, s, acts + [a]) == Do(h, EndOf(h, s, acts), a)
    decreases |acts|
  {
    if acts == [] {
      assert (acts + [a])[1..] == [];
      assert EndOf(h, s, acts + [a]) == EndOf(h, Do(h, s, a), []);
    } else {
      SerialSnoc(h, Do(h, s, acts[0]), acts[1..], a);
      assert (acts + [a])[1..] == acts[1..] + [a];
    }
  }

  lemma LargerId(used: set<TaskId>) returns (k: TaskId)
    ensures forall id :: id in used ==> id < k
    decreases used
  {
    if used == {} {
      k := 0;
    } else {
      var id :| id in used;
      var larger := LargerId(used - {id});
      k := larger + id + 1;
      forall j | j in used ensures j < k {
        if j != id { assert j in used - {id}; }
      }
    }
  }

  /** No serialised continuation that ends the cancel leaves a task of the instance READY or LOCKED. */
  ghost predicate StaysClosed(h: LockKey, s: Sys, i: InstanceId) {
    forall acts :: SerialRuns(h, s, acts) && Runs(h, s, acts) && i in EndOf(h, s, acts).db.cancelled ==>
      NoneOpen(EndOf(h, s, acts).db.store.rows, i)
  }

  /** A waiting token that the cancel has missed gets its task after the last write of the cancel. */
  lemma MissedTokenOpens(h: LockKey, s: Sys, c: CallerId, r: Ref) returns (acts: seq<Act>)
    requires c in s.callers && s.callers[c] == CancelTasks(r.inst) && WaitingAt(s.db.insts, r)
    requires forall id :: id in s.db.history ==> s.db.history[id] != r
    ensures |acts| == 2 && Can(s, acts[0]) && Serial(s, acts[0])
    ensures Can(Do(h, s, acts[0]), acts[1]) && Serial(Do(h, s, acts[0]), acts[1])
    ensures var e := Do(h, Do(h, s, acts[0]), acts[1]).db; r.inst in e.cancelled && !NoneOpen(e.store.rows, r.inst)
  {
    var id := LargerId(s.db.history.Keys);
    var create := CreateTask(id, r, "x", 3, 0, map[]);
    acts := [Move(c), create];
    var s' := Do(h, s, Move(c));
    assert s'.db.history == s.db.history && s'.db.insts == s.db.insts;
    var rows := Do(h, s', create).db.store.rows;
    assert id in rows && rows[id].instanceId == r.inst && Open(rows[id]);
  }

  /** The event that the cancel did not wait for, the rest of the cancel, and a task for the token it missed. */
  lemma UnserialisedOpens(h: LockKey, s: Sys, c: CallerId, b: CallerId, k: TokenId) returns (acts: seq<Act>)
    requires b in s.callers && (s.callers[b].AtResult? || s.callers[b].AtFire?)
    requires c in s.callers && s.callers[c] == CancelTasks(s.callers[b].t.ref.inst)
    requires var t := s.callers[b].t;
             && t.ref.inst in s.db.insts && Ref(t.ref.inst, k) !in s.db.usedTokens
             && (t.id in s.db.store.rows ==> s.db.store.rows[t.id].result == map[])
    requires HistoryOk(s.db.history, s.db.usedTokens)
    ensures SerialRuns(h, s, acts) && Runs(h, s, acts)
    ensures var i, e := s.callers[b].t.ref.inst, EndOf(h, s, acts).db; i in e.cancelled && !NoneOpen(e.store.rows, i)
  {
    var r := Ref(s.callers[b].t.ref.inst, k);
    var fire := FireOut(s.callers[b], b, k);
    FireOutRuns(h, s, b, k);
    var s' := EndOf(h, s, fire);
    var rest := MissedTokenOpens(h, s', c, r);
    SerialSnoc(h, s, fire, rest[0]);
    SerialSnoc(h, s, fire + [rest[0]], rest[1]);
    acts := fire + [rest[0]] + [rest[1]];
  }

  /** The outcome of a whole cancel: no task of the instance is open on any serialised continuation that ends it, if
      and only if its first write did not fall between the check and the event of an advance on the instance. */
  lemma ClosedExactly(h: LockKey, s: Sys, c: CallerId)
    requires Safe(h, s) && Clean(s) && Closed(s.db) && c in s.callers && s.callers[c].CancelSave?
    ensures StaysClosed(h, Do(h, s, Move(c)), s.callers[c].inst) <==> Serial(s, Move(c))
  {
    var i, s' := s.callers[c].inst, Do(h, s, Move(c));
    if Serial(s, Move(c)) {
      StepSafe(h, s, Move(c));
      CancelSaveKeepsClean(h, s, c);
      StepKeepsClosed(h, s, Move(c));
      forall acts | SerialRuns(h, s', acts) && Runs(h, s', acts) && i in EndOf(h, s', acts).db.cancelled
        ensures NoneOpen(EndOf(h, s', acts).db.store.rows, i)
      {
        RunKeepsClosed(h, s', acts);
      }
    } else {
      var b :| b in s.callers && Committed(s.callers[b], i);
      assert CallerOk(h, s, b);
      var k := LongerName(s.db.usedTokens);
      var acts := UnserialisedOpens(h, s', c, b, k);
      assert !NoneOpen(EndOf(h, s', acts).db.store.rows, i);
    }
  }

  // ---------- The race is reachable ----------

  lemma {:induction false} RunsSnoc(h: LockKey, s: Sys, acts: seq<Act>, a: Act)
    requires Runs(h, s, acts) && Can(EndOf(h, s, acts), a)
    ensures Runs(h, s, acts + [a]) && EndOf(h, s, acts + [a]) == Do(h, EndOf(h, s, acts), a)
    decreases |acts|
  {
    if acts == [] {
      assert (acts + [a])[1..] == [];
      assert EndOf(h, s, acts + [a]) == EndOf(h, Do(h, s, a), []);
    } else {
      RunsSnoc(h, Do(h, s, acts[0]), acts[1..], a);
      assert (acts + [a])[1..] == acts[1..] + [a];
    }
  }

  lemma ReachOn(h: LockKey, s: Sys, a: Act) returns (s': Sys)
    requires Reachable(h, s) && Can(s, a)
    ensures s' == Do(h, s, a) && Reachable(h, s')
  {
    s' := Do(h, s, a);
    var now, acts :| Runs(h, Initial(now), acts) && EndOf(h, Initial(now), acts) == s;
    RunsSnoc(h, Initial(now), acts, a);
  }

  const I: InstanceId := "i"
  const R: Ref := Ref(I, "t")
  const W: Worker := "w"

  ghost predicate OnlyTaskOf(s: Sys, r: Ref) {
    forall id :: id in s.db.history ==> s.db.history[id] == r
  }

  /** An instance runs with one token, which waits; nothing else has a task. */
  ghost predicate OneWaits(s: Sys) {
    && s.db.insts == map[I := Inst(Running, map[R.token := Waiting])] && s.db.usedTokens == {R}
    && OnlyTaskOf(s, R)
  }

  predicate At(s: Sys, c: CallerId, k: Caller) {
    c in s.callers && s.callers[c] == k
  }

  /** It has a task that is due. */
  lemma TaskCreated(h: LockKey) returns (s: Sys)
    ensures Reachable(h, s) && OneWaits(s) && s.callers == map[] && s.locks == map[]
    ensures s.db.store == World(0, map[0 := NewRow(0, R.token, I, "x", 3, map[])], {0})
  {
    s := Initial(0);
    assert Reachable(h, s) by { assert Runs(h, Initial(0), []) && EndOf(h, Initial(0), []) == s; }
    s := ReachOn(h, s, StartInstance(I, map[R.token := Waiting]));
    assert s.db.usedTokens == {R};
    s := ReachOn(h, s, CreateTask(0, R, "x", 3, 0, map[]));
  }

  /** Its task is locked by a worker whose lease is live. */
  lemma TaskTaken(h: LockKey) returns (s: Sys)
    ensures Reachable(h, s) && OneWaits(s) && s.callers == map[] && s.locks == map[]
    ensures 0 in s.db.store.rows && RefOf(s.db.store.rows[0]) == R && s.db.store.rows[0].advancedAt == None
    ensures s.db.store.rows[0].result == map[] && Completable(s.db.store, 0, W)
  {
    s := TaskCreated(h);
    var q := LockReady(W, 60, Filter(None, None), 1, {}, {0});
    assert EligibleIds(s.db.store, q.filter) == {0};
    assert {0} - {} == {0};
    s := ReachOn(h, s, Queue(q));
  }

  /** A completer has completed it and is about to take the lock of the task. */
  lemma TaskCompleted(h: LockKey) returns (s: Sys)
    ensures Reachable(h, s) && OneWaits(s) && s.callers == map[0 := AtTryLock(Task(0, R))] && s.locks == map[]
    ensures 0 in s.db.store.rows && s.db.store.rows[0].advancedAt == None && s.db.store.rows[0].result == map[]
  {
    s := TaskTaken(h);
    s := ReachOn(h, s, NewCompleter(0, 0, W));
    s := ReachOn(h, s, Move(0));
    s := ReachOn(h, s, Move(0));
  }

  /** It is past the lock and the flag. */
  lemma LockTaken(h: LockKey) returns (s: Sys)
    ensures Reachable(h, s) && OneWaits(s) && s.callers == map[0 := AtLoadRow(Task(0, R))]
    ensures 0 in s.db.store.rows && s.db.store.rows[0].result == map[]
  {
    s := TaskCompleted(h);
    s := ReachOn(h, s, Move(0));
    s := ReachOn(h, s, Move(0));
  }

  lemma TokenSeen(h: LockKey) returns (s: Sys)
    ensures Reachable(h, s) && OneWaits(s) && s.callers == map[0 := AtResult(Task(0, R), map[R.token := Waiting])]
    ensures 0 in s.db.store.rows && s.db.store.rows[0].result == map[]
  {
    s := LockTaken(h);
    s := ReachOn(h, s, Move(0));
    s := ReachOn(h, s, Move(0));
  }

  /** It has found the token waiting and is about to fire. */
  lemma AboutToFire(h: LockKey) returns (s: Sys)
    ensures Reachable(h, s) && OneWaits(s) && s.callers == map[0 := AtFire(Task(0, R))]
  {
    s := TokenSeen(h);
    s := ReachOn(h, s, Move(0));
  }

  lemma CancelStarted(h: LockKey) returns (s: Sys)
    ensures Reachable(h, s) && OneWaits(s) && At(s, 0, AtFire(Task(0, R))) && At(s, 1, CancelLoad(I))
  {
    s := AboutToFire(h);
    s := ReachOn(h, s, NewCancel(1, I));
  }

  lemma CancelLoaded(h: LockKey) returns (s: Sys)
    ensures Reachable(h, s) && OneWaits(s)
    ensures At(s, 0, AtFire(Task(0, R))) && At(s, 1, CancelTokens(I, Running))
  {
    s := CancelStarted(h);
    s := ReachOn(h, s, Move(1));
  }

  /** Meanwhile a cancel has loaded the instance and is about to save it. */
  lemma AboutToCancel(h: LockKey) returns (s: Sys)
    ensures Reachable(h, s) && OneWaits(s)
    ensures At(s, 0, AtFire(Task(0, R))) && At(s, 1, CancelSave(I, map[R.token := Waiting]))
  {
    s := CancelLoaded(h);
    s := ReachOn(h, s, Move(1));
  }

  /** Serialisation is needed: for every lock key, some reachable state holds a waiting token in a
      terminated instance, between the two writes of its cancel. */
  lemma UnserialisedCancelIsUnsafe(h: LockKey) returns (s: Sys)
    ensures Reachable(h, s) && Ended(s.db.insts, I) && WaitingAt(s.db.insts, Ref(I, "u"))
    ensures At(s, 1, CancelTasks(I)) && OnlyTaskOf(s, R)
  {
    s := AboutToCancel(h);
    s := ReachOn(h, s, Move(1));
    s := ReachOn(h, s, Fire(0, true, map["u" := Waiting], false));
  }

  /** And some reachable state holds an open task of an instance whose cancel has run to its end. */
  lemma CancelledTaskOpens(h: LockKey) returns (s: Sys)
    ensures Reachable(h, s) && I in s.db.cancelled && !NoneOpen(s.db.store.rows, I)
  {
    s := UnserialisedCancelIsUnsafe(h);
    var acts := MissedTokenOpens(h, s, 1, Ref(I, "u"));
    s := ReachOn(h, s, acts[0]);
    s := ReachOn(h, s, acts[1]);
  }
}
