/**
 The timer service (timer.rs, external_tasks.rs) as it runs: reclaim, fire what is due, then reconcile the
 completed tasks whose token never moved. What other sessions and the engine do shows in the `Luck` of each
 attempt: time may pass before it, the advisory lock may be taken, and the event may have no effect.
 */
module TimerService {
  import opened Wrappers
  import opened ProcessModel
  import opened ProcessStore
  import opened TaskTable
  import opened TaskStore
  import CancelInstance
  import TaskEffects

  const WORKER: Worker := "timer-service"
  const BATCH: nat := 20
  const LEASE: nat := 60
  const FIRE_ERROR: string := "task not completable"

  /** What one attempt meets: the seconds that pass before it, whether its advisory lock is free, and whether the
      engine event, if it is fired, takes effect. */
  datatype Luck = Luck(pause: nat, lockFree: bool, moves: bool)

  /** How one attempt to advance a task ended. */
  datatype Outcome = NotOurs | Marked | StillThere | Broken(error: StoreError)

  /** The instance runs and the token waits in it: the event is due. */
  predicate EventDue(t: Tables, inst: InstanceId, token: TokenId) {
    && inst in t.instances && InstanceStateOf(t.instances[inst].state) == Some(Running)
    && (inst, token) in t.tokens && t.tokens[(inst, token)].status == "Waiting"
  }

  /** A load of the instance does not fail. */
  predicate Readable(t: Tables, i: InstanceId) {
    i in t.instances ==> Decodable(t, i)
  }

  ghost predicate KeepsReadable(t: Tables, t': Tables) {
    forall i :: Readable(t, i) ==> Readable(t', i)
  }

  /** The task is not marked, and this attempt gets its lock. */
  predicate Gets(rows: map<TaskId, Row>, id: TaskId, l: Luck) {
    l.lockFree && id in rows && rows[id].advancedAt.None?
  }

  /** Nothing stands in the way of this attempt, except that an event without effect leaves the token in place. */
  predicate Clear(rows: map<TaskId, Row>, t: Tables, id: TaskId, inst: InstanceId, token: TokenId, l: Luck) {
    Gets(rows, id, l) && Readable(t, inst) && (EventDue(t, inst, token) ==> l.moves)
  }

  /** Something stands in the way of an attempt for the instance: lock taken, event without effect, or
      instance unreadable. */
  predicate Hindered(t: Tables, inst: InstanceId, l: Luck) {
    !l.lockFree || !l.moves || !Readable(t, inst)
  }

  // ---------- What happens to the queue ----------

  /** The queue changed only by marking the given tasks, by gaining new READY ones, and by time passing. */
  ghost predicate OnlyMarks(w: World, w': World, marks: set<TaskId>) {
    && w.now <= w'.now && w.used <= w'.used
    && (forall id :: id in w.rows ==> id in w'.rows)
    && (forall id :: id in w.rows && id !in marks ==> w'.rows[id] == w.rows[id])
    && (forall id :: id in w.rows && id in marks ==>
          w'.rows[id].advancedAt.Some? && w'.rows[id] == w.rows[id].(advancedAt := w'.rows[id].advancedAt))
    && (forall id :: id in w'.rows && id !in w.rows ==> w'.rows[id].state.READY?)
  }

  lemma OnlyMarksThen(u: World, v: World, w: World, a: set<TaskId>, b: set<TaskId>)
    requires OnlyMarks(u, v, a) && OnlyMarks(v, w, b) && b <= u.rows.Keys
    ensures OnlyMarks(u, w, a + b)
  {
  }

  lemma MarksLeaveBacklog(w: World, w': World, marks: set<TaskId>, cutoff: int)
    requires OnlyMarks(w, w', marks)
    ensures Backlog(w'.rows, cutoff) == Backlog(w.rows, cutoff) - marks
  {
    forall id ensures id in Backlog(w'.rows, cutoff) <==> id in Backlog(w.rows, cutoff) - marks {}
  }

  /** No task goes or changes its instance, and none leaves COMPLETED. */
  ghost predicate KeepsTasks(rows: map<TaskId, Row>, rows': map<TaskId, Row>) {
    forall id :: id in rows ==>
      && id in rows' && rows'[id].instanceId == rows[id].instanceId
      && (rows[id].state.COMPLETED? ==> rows'[id].state.COMPLETED?)
  }

  /** And no backlog up to the present changes. */
  ghost predicate BacklogsStay(w: World, w': World) {
    && w.now <= w'.now && KeepsTasks(w.rows, w'.rows)
    && forall id, cutoff :: cutoff <= w.now ==> (Stale(w'.rows, cutoff, id) <==> Stale(w.rows, cutoff, id))
  }

  // ---------- The engine ----------

  /** The token gone, tokens with new ids added, written by the store's own codecs. */
  function AfterEvent(before: map<Key, TokenRow>, gone: Key, emitted: map<Key, TokenRow>): map<Key, TokenRow> {
    (map k | k in before && k != gone :: before[k])
    + (map k | k in emitted && k.0 == gone.0 && k != gone && k !in before && Emittable(k, emitted[k]) :: emitted[k])
  }

  predicate Emittable(k: Key, r: TokenRow) {
    TokenOfRow(k.1, r).Some? && r.version < I32_LIMIT && r.attempt < I32_LIMIT
  }

  /** Nothing of other instances changes, and no instance comes or goes. */
  ghost predicate TouchesOnly(t: Tables, t': Tables, inst: InstanceId) {
    && t'.instances.Keys == t.instances.Keys
    && (forall i :: i in t.instances && i != inst ==> t'.instances[i] == t.instances[i])
    && (forall k: Key :: k.0 != inst ==> (k in t'.tokens <==> k in t.tokens))
    && (forall k: Key :: k.0 != inst && k in t.tokens && k in t'.tokens ==> t'.tokens[k] == t.tokens[k])
  }

  lemma TouchKeepsReadable(t: Tables, t': Tables, inst: InstanceId)
    requires TouchesOnly(t, t', inst) && (Readable(t, inst) ==> Readable(t', inst))
    ensures KeepsReadable(t, t')
  {
    forall i | Readable(t, i) ensures Readable(t', i) {
      if i in t'.instances && i != inst { assert Decodable(t, i); }
    }
  }

  /** The engine may create a task, under a new id. */
  method MayCreateTask(ext: Store, inst: InstanceId)
    modifies ext
    ensures OnlyMarks(old(ext.View()), ext.View(), {}) && ext.now == old(ext.now)
  {
    var drawn: TaskId, waits: TokenId, taskType: string := *, *, *;
    if drawn !in ext.used && drawn !in ext.rows {
      var created := ext.Create(drawn, waits, inst, taskType, 3, 0, map[]);
    }
  }

  /** A completion event: either nothing happens, or the token goes, others may come, the instance may finish
      and a new task may be created. */
  method RunEvent(ext: Store, db: Database, inst: InstanceId, token: TokenId, moves: bool)
    requires CancelInstance.ColumnsFit(db.View()) && inst in db.instances
    modifies ext, db
    ensures CancelInstance.ColumnsFit(db.View())
    ensures OnlyMarks(old(ext.View()), ext.View(), {}) && ext.now == old(ext.now)
    ensures TouchesOnly(old(db.View()), db.View(), inst) && KeepsReadable(old(db.View()), db.View())
    ensures db.instances[inst].variables == old(db.instances[inst].variables)
    ensures if moves then (inst, token) !in db.tokens else db.View() == old(db.View())
  {
    ghost var before := db.View();
    if !moves {
      return;
    }
    var emitted: map<Key, TokenRow> := *;
    db.tokens := AfterEvent(db.tokens, (inst, token), emitted);
    var finished: bool := *;
    if finished {
      db.instances := db.instances[inst := db.instances[inst].(state := InstanceStateText(InstanceState.Completed))];
    }
    EventKeepsReadable(before, db.View(), inst, token, emitted);
    MayCreateTask(ext, inst);
  }

  lemma EventKeepsReadable(t: Tables, t': Tables, inst: InstanceId, token: TokenId, emitted: map<Key, TokenRow>)
    requires inst in t.instances && t'.tokens == AfterEvent(t.tokens, (inst, token), emitted)
    requires var row := t.instances[inst];
             t'.instances == t.instances || t'.instances == t.instances[inst := row.(state := "Completed")]
    ensures TouchesOnly(t, t', inst) && KeepsReadable(t, t')
  {
    if Readable(t, inst) {
      forall k | k in t'.tokens && k.0 == inst ensures TokenOfRow(k.1, t'.tokens[k]).Some? {
        if k in t.tokens { assert TokenOfRow(k.1, t.tokens[k]).Some?; }
      }
      assert InstanceStateOf("Completed") == Some(InstanceState.Completed);
    }
    TouchKeepsReadable(t, t', inst);
  }

  // ---------- advance_after_task ----------

  /** The id of the first token in the list that waits under the given id. */
  predicate FindsWaiting(tokens: seq<Token>, token: TokenId) {
    exists t :: t in tokens && t.id == token && t.status.Waiting?
  }

  predicate HasToken(tokens: seq<Token>, token: TokenId) {
    exists t :: t in tokens && t.id == token
  }

  /** What the loaded list says about a token is what its row says. */
  lemma ListedToken(t: Tables, p: ProcessInstance, token: TokenId)
    requires Loads(t, p.id, Success(Some(p)))
    ensures FindsWaiting(p.tokens, token) <==> (p.id, token) in t.tokens && t.tokens[(p.id, token)].status == "Waiting"
    ensures HasToken(p.tokens, token) <==> (p.id, token) in t.tokens
  {
    if (p.id, token) in t.tokens {
      var u :| u in p.tokens && u.id == (p.id, token).1;
      CodecsRoundTrip(t.tokens[(p.id, token)].status, Running, u.status, u.mode);
      forall v | v in p.tokens && v.id == token ensures v == u {}
    }
  }

  lemma LoadedIsStorable(t: Tables, p: ProcessInstance, vars: Variables)
    requires CancelInstance.ColumnsFit(t) && Loads(t, p.id, Success(Some(p)))
    ensures Storable(p.(variables := vars))
  {
  }

  /** Saving a loaded instance again, with other variables, changes its variables and nothing else that is read. */
  lemma MergeSave(t: Tables, p: ProcessInstance, vars: Variables, token: TokenId)
    requires CancelInstance.ColumnsFit(t) && Loads(t, p.id, Success(Some(p)))
    ensures var t' := Saved(t, p.(variables := vars));
            && t'.instances == t.instances[p.id := t.instances[p.id].(variables := vars)]
            && ((p.id, token) in t'.tokens <==> (p.id, token) in t.tokens)
            && CancelInstance.ColumnsFit(t')
  {
    var q := p.(variables := vars);
    LoadedIsStorable(t, p, vars);
    CancelInstance.SaveKeepsColumns(t, q);
    SavedRow(t, q, (p.id, token));
    CodecsRoundTrip(t.instances[p.id].state, p.state, Waiting, Forward);
    if (p.id, token) in t.tokens { var u :| u in p.tokens && u.id == (p.id, token).1; }
  }

  lemma SaveTouchesOnly(t: Tables, p: ProcessInstance)
    requires Storable(p) && p.id in t.instances
    ensures TouchesOnly(t, Saved(t, p), p.id) && KeepsReadable(t, Saved(t, p)) && Readable(Saved(t, p), p.id)
  {
    forall k: Key | k.0 != p.id
      ensures k in Saved(t, p).tokens <==> k in t.tokens
      ensures k in t.tokens ==> Saved(t, p).tokens[k] == t.tokens[k]
    {
      SaveKeepsOthers(t, p, k);
    }
    RowsDecode(t, p);
    TouchKeepsReadable(t, Saved(t, p), p.id);
  }

  /** The result merged into the variables, the result winning, and stored if there is one. */
  method MergeResult(db: Database, instance: ProcessInstance, result: Variables, ghost token: TokenId)
    requires CancelInstance.ColumnsFit(db.View()) && Loads(db.View(), instance.id, Success(Some(instance)))
    modifies db
    ensures CancelInstance.ColumnsFit(db.View())
    ensures TouchesOnly(old(db.View()), db.View(), instance.id) && KeepsReadable(old(db.View()), db.View())
    ensures db.instances[instance.id].variables == old(db.instances)[instance.id].variables + result
    ensures (instance.id, token) in db.tokens <==> (instance.id, token) in old(db.tokens)
  {
    if result != map[] {
      MergeSave(db.View(), instance, instance.variables + result, token);
      LoadedIsStorable(db.View(), instance, instance.variables + result);
      SaveTouchesOnly(db.View(), instance.(variables := instance.variables + result));
      var saved := db.Save(instance.(variables := instance.variables + result));
      assert saved.Success?;
    } else {
      assert instance.variables + result == instance.variables;
    }
  }

  lemma TouchesThen(t: Tables, u: Tables, v: Tables, inst: InstanceId)
    requires TouchesOnly(t, u, inst) && TouchesOnly(u, v, inst) && KeepsReadable(t, u) && KeepsReadable(u, v)
    ensures TouchesOnly(t, v, inst) && KeepsReadable(t, v)
  {
  }

  /** The tables after the event was fired for a token that was due: the result is in the variables, and the token
      is gone exactly if the event took effect. */
  ghost predicate EventRan(t: Tables, t': Tables, inst: InstanceId, token: TokenId, result: Variables, moves: bool) {
    && TouchesOnly(t, t', inst) && inst in t.instances
    && t'.instances[inst].variables == t.instances[inst].variables + result
    && ((inst, token) in t'.tokens <==> !moves)
  }

  /** The worker's output is laid over the variables: its values win. */
  lemma ResultWins(t: Tables, t': Tables, inst: InstanceId, token: TokenId, result: Variables, moves: bool)
    requires EventRan(t, t', inst, token, result, moves)
    ensures TaskEffects.Overlaid(t.instances[inst].variables, result, t'.instances[inst].variables)
  {
  }

  /** The middle of the attempt, for an instance found running with its token waiting: merge the result, fire,
      read again. It succeeds exactly if the event takes effect. */
  method MergeAndFire(ext: Store, db: Database, id: TaskId, token: TokenId, instance: ProcessInstance, moves: bool)
    returns (r: Outcome)
    requires CancelInstance.ColumnsFit(db.View()) && Loads(db.View(), instance.id, Success(Some(instance)))
    requires id in ext.rows && (instance.id, token) in db.tokens
    modifies ext, db
    ensures CancelInstance.ColumnsFit(db.View())
    ensures OnlyMarks(old(ext.View()), ext.View(), {}) && ext.now == old(ext.now)
    ensures KeepsReadable(old(db.View()), db.View())
    ensures EventRan(old(db.View()), db.View(), instance.id, token, old(ext.rows)[id].result, moves)
    ensures r == if moves then Marked else StillThere
  {
    ghost var start := db.View();
    assert Readable(start, instance.id);
    var result := ext.ResultOf(id);
    MergeResult(db, instance, result, token);
    ghost var merged := db.View();
    RunEvent(ext, db, instance.id, token, moves);
    TouchesThen(start, merged, db.View(), instance.id);
    var again := db.Load(instance.id);
    // An instance that was readable is still readable, so the second load does not fail.
    assert again.Success?;
    if again.value.Some? {
      ListedToken(db.View(), again.value.value, token);
      if HasToken(again.value.value.tokens, token) {
        return StillThere;
      }
    }
    r := Marked;
  }

  lemma FoundIsDue(t: Tables, p: ProcessInstance, token: TokenId)
    requires Loads(t, p.id, Success(Some(p)))
    ensures p.state.Running? && FindsWaiting(p.tokens, token) <==> EventDue(t, p.id, token)
    ensures EventDue(t, p.id, token) <==>
              p.state == Running && exists u :: u in p.tokens && u.id == token && u.status == Waiting
  {
    ListedToken(t, p, token);
  }

  /** What the attempt does to the instance tables: the event runs exactly if it is due and the attempt gets so far. */
  ghost predicate Attempted(rows: map<TaskId, Row>, t: Tables, t': Tables, id: TaskId, inst: InstanceId, token: TokenId,
                            l: Luck)
  {
    && CancelInstance.ColumnsFit(t') && KeepsReadable(t, t')
    && if Gets(rows, id, l) && Readable(t, inst) && EventDue(t, inst, token)
       then EventRan(t, t', inst, token, rows[id].result, l.moves)
       else t' == t
  }

  /** Behind the lock and the flag: look for the waiting token, fire if it is there. Ends marked exactly if nothing
      stands in the way. */
  method FireIfDue(ext: Store, db: Database, id: TaskId, token: TokenId, inst: InstanceId, l: Luck) returns (r: Outcome)
    requires CancelInstance.ColumnsFit(db.View()) && Gets(ext.rows, id, l)
    modifies ext, db
    ensures OnlyMarks(old(ext.View()), ext.View(), {}) && ext.now == old(ext.now)
    ensures Attempted(old(ext.rows), old(db.View()), db.View(), id, inst, token, l)
    ensures r.Marked? <==> Clear(old(ext.rows), old(db.View()), id, inst, token, l)
    ensures !r.NotOurs?
  {
    var loaded := db.Load(inst);
    if loaded.Failure? {
      return Broken(loaded.error);
    }
    if loaded.value.None? {
      return Marked;
    }
    var instance := loaded.value.value;
    FoundIsDue(db.View(), instance, token);
    if instance.state.Running? && FindsWaiting(instance.tokens, token) {
      r := MergeAndFire(ext, db, id, token, instance, l.moves);
    } else {
      r := Marked;
    }
  }

  /** One attempt to advance the token of a completed task. It ends with the task marked exactly if its lock is
      free, it was not marked, its instance can be read, and the event takes effect if it is due. */
  method AdvanceAfterTask(ext: Store, db: Database, id: TaskId, token: TokenId, inst: InstanceId, l: Luck)
    returns (r: Outcome)
    requires CancelInstance.ColumnsFit(db.View())
    modifies ext, db
    ensures Attempted(old(ext.rows), old(db.View()), db.View(), id, inst, token, l)
    ensures r.Marked? <==> Clear(old(ext.rows), old(db.View()), id, inst, token, l)
    ensures r.NotOurs? <==> !Gets(old(ext.rows), id, l)
    ensures OnlyMarks(old(ext.View()), ext.View(), if r.Marked? then {id} else {}) && ext.now == old(ext.now)
  {
    var advanced := ext.IsAdvanced(id);
    if !l.lockFree || advanced {
      return NotOurs;
    }
    r := FireIfDue(ext, db, id, token, inst, l);
    if r.Marked? {
      ghost var before := ext.View();
      ext.MarkAdvanced(id);
      assert OnlyMarks(before, ext.View(), {id});
      OnlyMarksThen(old(ext.View()), before, ext.View(), {}, {id});
      assert {} + {id} == {id};
    }
  }

  // ---------- complete_and_advance ----------

  /** Completion decides the result; a failed advance after it is left to the reconciler. */
  method CompleteAndAdvance(ext: Store, db: Database, id: TaskId, worker: Worker, vars: Variables, l: Luck)
    returns (ok: bool)
    requires CancelInstance.ColumnsFit(db.View())
    modifies ext, db
    ensures CancelInstance.ColumnsFit(db.View()) && KeepsReadable(old(db.View()), db.View()) && ext.now == old(ext.now)
    ensures ok <==> old(Completable(ext.View(), id, worker))
    ensures !ok ==> ext.View() == old(ext.View()) && db.View() == old(db.View())
    ensures ok ==>
              var w, row := Apply(old(ext.View()), TaskTable.Complete(id, worker, vars)), old(ext.rows)[id];
              && Attempted(w.rows, old(db.View()), db.View(), id, row.instanceId, row.tokenId, l)
              && OnlyMarks(w, ext.View(), if Clear(w.rows, old(db.View()), id, row.instanceId, row.tokenId, l) then {id}
                else {})
  {
    var done := ext.Complete(id, worker, vars);
    if done.Failure? {
      return false;
    }
    var task := ext.Get(id);
    var r := AdvanceAfterTask(ext, db, id, task.value.tokenId, task.value.instanceId, l);
    ok := true;
  }

  // ---------- poll_once: fire what is due ----------

  /** A row that changes without being, or becoming, a completed one. */
  predicate StaysOpen(r: Row, r': Row) {
    r' == r || (r'.instanceId == r.instanceId && !r.state.COMPLETED? && !r'.state.COMPLETED?)
  }

  lemma OpenRowsKeepBacklogs(w: World, w': World)
    requires w'.now == w.now && w'.rows.Keys == w.rows.Keys
    requires forall id :: id in w.rows ==> StaysOpen(w.rows[id], w'.rows[id])
    ensures BacklogsStay(w, w')
  {
    forall id | id in w.rows ensures id in w'.rows && w'.rows[id].instanceId == w.rows[id].instanceId {
      assert StaysOpen(w.rows[id], w'.rows[id]);
    }
  }

  lemma StatementOnOpenRow(w: World, q: TaskTable.Step, id: TaskId)
    requires q.Reclaim? || q.Fail? || (q.LockReady? && Enabled(w, q))
    requires id in w.rows
    ensures id in Apply(w, q).rows && StaysOpen(w.rows[id], Apply(w, q).rows[id])
  {
    TakenWasReady(w, q, id);
  }

  /** The statements that open a pass leave every backlog alone. */
  lemma StatementKeepsBacklogs(w: World, q: TaskTable.Step)
    requires q.Reclaim? || q.Fail? || (q.LockReady? && Enabled(w, q))
    ensures BacklogsStay(w, Apply(w, q))
  {
    forall id | id in w.rows ensures id in Apply(w, q).rows && StaysOpen(w.rows[id], Apply(w, q).rows[id]) {
      StatementOnOpenRow(w, q, id);
    }
    OpenRowsKeepBacklogs(w, Apply(w, q));
  }

  /** What becomes at time t of a timer that the pass has locked: completed with an empty result while the lease
      lives, otherwise failed, to be retried five seconds later. */
  ghost predicate Resolved(locked: Row, t: int, r: Row) {
    if locked.lockExpireAt.Some? && locked.lockExpireAt.value > t
    then r == CompleteRow(locked, t, map[]).(advancedAt := r.advancedAt)
    else r == if locked.retries > I32_MIN then FailRow(locked, t, FIRE_ERROR, Some(5)) else locked
  }

  /** A timer whose lease was over by then can be taken again exactly five seconds later, if it has retries left. */
  lemma ResolvedLate(w: World, id: TaskId, locked: Row, wait: nat, f: Filter)
    requires id in w.rows && Resolved(locked, w.now, w.rows[id])
    requires locked.lockExpireAt.Some? && locked.lockExpireAt.value <= w.now && locked.retries >= 2
    ensures w.rows[id].retries == locked.retries - 1
    ensures id in EligibleIds(Apply(w, Tick(wait)), f) <==> Admits(f, locked.taskType) && wait >= 5
  {
  }

  ghost predicate OthersStay(w: World, w': World, id: TaskId) {
    && w.now <= w'.now
    && forall k :: k in w.rows && k != id ==> k in w'.rows && w'.rows[k] == w.rows[k]
  }

  lemma CompletingKeepsBacklogs(w: World, id: TaskId, vars: Variables, w': World, marks: set<TaskId>)
    requires id in w.rows && w.rows[id].state.LOCKED? && marks <= {id}
    requires OnlyMarks(w.(rows := w.rows[id := CompleteRow(w.rows[id], w.now, vars)]), w', marks)
    ensures BacklogsStay(w, w') && OthersStay(w, w', id)
    ensures w'.rows[id] == CompleteRow(w.rows[id], w.now, vars).(advancedAt := w'.rows[id].advancedAt)
    ensures id in marks ==> w'.rows[id].advancedAt.Some?
  {
    forall k | k in w.rows && k != id ensures k in w'.rows && w'.rows[k] == w.rows[k] {}
  }

  /** One timer of the batch. If it is completed and nothing stands in the way, its token has moved and it is marked. */
  method FireOne(ext: Store, db: Database, id: TaskId, l: Luck)
    requires CancelInstance.ColumnsFit(db.View())
    requires id in ext.rows && ext.rows[id].state.LOCKED? && ext.rows[id].lockOwner == Some(WORKER)
    modifies ext, db
    ensures CancelInstance.ColumnsFit(db.View()) && KeepsReadable(old(db.View()), db.View())
    ensures ext.now == old(ext.now) + l.pause
    ensures BacklogsStay(old(ext.View()), ext.View()) && OthersStay(old(ext.View()), ext.View(), id)
    ensures id in ext.rows && Resolved(old(ext.rows)[id], ext.now, ext.rows[id])
    ensures ext.rows[id].state.COMPLETED? && !Hindered(old(db.View()), old(ext.rows)[id].instanceId, l) ==>
              ext.rows[id].advancedAt.Some?
  {
    ext.now := ext.now + l.pause;
    ghost var start := ext.View();
    var ok := CompleteAndAdvance(ext, db, id, WORKER, map[], l);
    if ok {
      CompletingKeepsBacklogs(start, id, map[], ext.View(),
        if Clear(Apply(start, TaskTable.Complete(id, WORKER, map[])).rows, old(db.View()), id,
                 start.rows[id].instanceId, start.rows[id].tokenId, l) then {id} else {});
    } else {
      StatementKeepsBacklogs(start, TaskTable.Fail(id, WORKER, FIRE_ERROR, Some(5)));
      var ignored := ext.Fail(id, WORKER, FIRE_ERROR, Some(5));
    }
  }

  /** The seconds that pass up to and including the attempts for these tasks. */
  function Elapsed(luck: TaskId -> Luck, ids: seq<TaskId>): nat {
    if ids == [] then 0 else Elapsed(luck, ids[..|ids| - 1]) + luck(ids[|ids| - 1]).pause
  }

  /** The row of a timer once the pass has locked it. */
  function LockedRow(w: World, id: TaskId): Row
    requires id in w.rows
  {
    LockRow(w.rows[id], w.now, WORKER, LEASE)
  }

  lemma BatchRow(w: World, held: set<TaskId>, due: seq<TaskId>, id: TaskId)
    requires IsBatch(w, TIMERS, BATCH, held, Ids(due)) && id in Ids(due)
    ensures id in w.rows && w.rows[id].state.READY?
    ensures Apply(w, TaskTable.LockReady(WORKER, LEASE, TIMERS, BATCH, held, Ids(due))).rows[id] == LockedRow(w, id)
  {
    assert id in EligibleIds(w, TIMERS);
  }

  /** The row of the j-th timer once it was fired: resolved at its own time, and marked if it is completed and
      nothing stood in the way. */
  ghost predicate FiredRow(w: World, t: Tables, luck: TaskId -> Luck, due: seq<TaskId>, j: nat, r: Row)
    requires j < |due| && due[j] in w.rows
  {
    && Resolved(LockedRow(w, due[j]), w.now + Elapsed(luck, due[..j + 1]), r)
    && (r.state.COMPLETED? && !Hindered(t, w.rows[due[j]].instanceId, luck(due[j])) ==> r.advancedAt.Some?)
  }

  /** The first i timers have been fired, the rest are still locked. */
  ghost predicate FiredUpTo(w: World, t: Tables, luck: TaskId -> Luck, due: seq<TaskId>, i: nat, rows: map<TaskId, Row>)
  {
    && i <= |due|
    && forall j :: 0 <= j < |due| ==>
         && due[j] in w.rows && due[j] in rows
         && if j < i then FiredRow(w, t, luck, due, j, rows[due[j]]) else rows[due[j]] == LockedRow(w, due[j])
  }

  lemma FiredNext(w: World, t: Tables, luck: TaskId -> Luck, due: seq<TaskId>, i: nat, before: World, after: World)
    requires i < |due| && FiredUpTo(w, t, luck, due, i, before.rows)
    requires forall j, k :: 0 <= j < k < |due| ==> due[j] != due[k]
    requires OthersStay(before, after, due[i]) && due[i] in after.rows
    requires FiredRow(w, t, luck, due, i, after.rows[due[i]])
    ensures FiredUpTo(w, t, luck, due, i + 1, after.rows)
  {
    forall j | 0 <= j < |due| && j != i ensures due[j] in after.rows && after.rows[due[j]] == before.rows[due[j]] {
      assert due[j] != due[i];
    }
  }

  /** The loop over the batch. */
  method FireAll(ext: Store, db: Database, luck: TaskId -> Luck, due: seq<TaskId>, ghost w: World)
    requires CancelInstance.ColumnsFit(db.View()) && ext.now == w.now
    requires forall j, k :: 0 <= j < k < |due| ==> due[j] != due[k]
    requires FiredUpTo(w, db.View(), luck, due, 0, ext.rows)
    modifies ext, db
    ensures CancelInstance.ColumnsFit(db.View()) && KeepsReadable(old(db.View()), db.View())
    ensures BacklogsStay(old(ext.View()), ext.View())
    ensures FiredUpTo(w, old(db.View()), luck, due, |due|, ext.rows)
  {
    ghost var t := db.View();
    assert due[..0] == [];
    for i := 0 to |due|
      invariant CancelInstance.ColumnsFit(db.View()) && KeepsReadable(t, db.View())
      invariant BacklogsStay(old(ext.View()), ext.View())
      invariant ext.now == w.now + Elapsed(luck, due[..i])
      invariant FiredUpTo(w, t, luck, due, i, ext.rows)
    {
      ghost var before := ext.View();
      assert due[..i + 1][..i] == due[..i];
      FireOne(ext, db, due[i], luck(due[i]));
      FiredNext(w, t, luck, due, i, before, ext.View());
    }
  }

  /** Reclaim, lock a batch of due timers, fire each. `held` are rows that other sessions have locked. */
  method FireDue(ext: Store, db: Database, luck: TaskId -> Luck, held: set<TaskId>) returns (due: seq<TaskId>)
    requires CancelInstance.ColumnsFit(db.View())
    modifies ext, db
    ensures CancelInstance.ColumnsFit(db.View()) && KeepsReadable(old(db.View()), db.View())
    ensures BacklogsStay(old(ext.View()), ext.View())
    ensures IsBatch(Apply(old(ext.View()), Reclaim), TIMERS, BATCH, held, Ids(due))
    ensures FiredUpTo(Apply(old(ext.View()), Reclaim), old(db.View()), luck, due, |due|, ext.rows)
  {
    StatementKeepsBacklogs(ext.View(), Reclaim);
    var reclaimed := ext.ReclaimExpiredLocks();
    ghost var w := ext.View();
    due := ext.LockDueTimers(WORKER, BATCH, held);
    StatementKeepsBacklogs(w, TaskTable.LockReady(WORKER, LEASE, TIMERS, BATCH, held, Ids(due)));
    forall j | 0 <= j < |due|
      ensures due[j] in w.rows && due[j] in ext.rows && ext.rows[due[j]] == LockedRow(w, due[j])
    {
      BatchRow(w, held, due, due[j]);
    }
    FireAll(ext, db, luck, due, w);
  }

  /** While the lease lasts, every timer of the batch is completed. */
  lemma FiredInTime(w: World, t: Tables, luck: TaskId -> Luck, due: seq<TaskId>, rows: map<TaskId, Row>, id: TaskId)
    requires FiredUpTo(w, t, luck, due, |due|, rows) && id in Ids(due) && Elapsed(luck, due) < LEASE
    ensures id in w.rows && id in rows && rows[id].state.COMPLETED?
    ensures !Hindered(t, w.rows[id].instanceId, luck(id)) ==> rows[id].advancedAt.Some?
  {
    var j :| 0 <= j < |due| && due[j] == id;
    ElapsedRises(luck, due, j + 1);
  }

  lemma {:induction false} ElapsedRises(luck: TaskId -> Luck, ids: seq<TaskId>, n: nat)
    requires n <= |ids|
    ensures Elapsed(luck, ids[..n]) <= Elapsed(luck, ids)
  {
    if n == |ids| {
      assert ids[..n] == ids;
    } else {
      assert ids[..|ids| - 1][..n] == ids[..n];
      ElapsedRises(luck, ids[..|ids| - 1], n);
    }
  }

  // ---------- poll_once: reconcile ----------

  /** One reconciliation, after which the marks so far have grown by the task if it was settled. */
  method ReconcileOne(ext: Store, db: Database, id: TaskId, l: Luck, ghost start: World, ghost marked: set<TaskId>)
    returns (ok: bool)
    requires CancelInstance.ColumnsFit(db.View()) && id in start.rows && start.rows[id].advancedAt.None?
             && id !in marked
    requires OnlyMarks(start, ext.View(), marked)
    modifies ext, db
    ensures CancelInstance.ColumnsFit(db.View()) && KeepsReadable(old(db.View()), db.View())
    ensures OnlyMarks(start, ext.View(), if ok then marked + {id} else marked)
    ensures !ok ==> Hindered(old(db.View()), start.rows[id].instanceId, l)
  {
    ext.now := ext.now + l.pause;
    ghost var before := ext.View();
    var task := ext.Get(id);
    var r := AdvanceAfterTask(ext, db, id, task.value.tokenId, task.value.instanceId, l);
    ok := r.Marked?;
    OnlyMarksThen(start, before, ext.View(), marked, if ok then {id} else {});
    assert marked + {} == marked;
  }

  /** The marks so far, among the first i; what is not marked met a hindrance. */
  ghost predicate ReconciledUpTo(start: World, t: Tables, luck: TaskId -> Luck, picked: seq<TaskId>, i: nat,
                                 marked: set<TaskId>)
  {
    && i <= |picked| && marked <= Ids(picked[..i])
    && forall id :: id in Ids(picked[..i]) - marked ==>
         id in start.rows && Hindered(t, start.rows[id].instanceId, luck(id))
  }

  lemma ReconciledNext(start: World, t: Tables, u: Tables, luck: TaskId -> Luck, picked: seq<TaskId>, i: nat,
                       marked: set<TaskId>, ok: bool)
    requires i < |picked| && ReconciledUpTo(start, t, luck, picked, i, marked) && KeepsReadable(t, u)
    requires Ids(picked[..i + 1]) == Ids(picked[..i]) + {picked[i]} && picked[i] in start.rows
    requires !ok ==> Hindered(u, start.rows[picked[i]].instanceId, luck(picked[i]))
    ensures ReconciledUpTo(start, t, luck, picked, i + 1, if ok then marked + {picked[i]} else marked)
  {
  }

  /** Reconcile the given tasks one after the other. `stuck` counts those not marked, each of which met a
      hindrance. */
  method ReconcileAll(ext: Store, db: Database, luck: TaskId -> Luck, picked: seq<TaskId>)
    returns (stuck: nat, ghost marked: set<TaskId>)
    requires CancelInstance.ColumnsFit(db.View())
    requires forall i :: 0 <= i < |picked| ==> picked[i] in ext.rows && ext.rows[picked[i]].advancedAt.None?
    requires forall i, j :: 0 <= i < j < |picked| ==> picked[i] != picked[j]
    modifies ext, db
    ensures CancelInstance.ColumnsFit(db.View()) && KeepsReadable(old(db.View()), db.View())
    ensures OnlyMarks(old(ext.View()), ext.View(), marked)
    ensures ReconciledUpTo(old(ext.View()), old(db.View()), luck, picked, |picked|, marked)
            && |marked| + stuck == |picked|
  {
    ghost var start, t := ext.View(), db.View();
    stuck, marked := 0, {};
    for i := 0 to |picked|
      invariant CancelInstance.ColumnsFit(db.View()) && KeepsReadable(t, db.View())
      invariant OnlyMarks(start, ext.View(), marked)
      invariant ReconciledUpTo(start, t, luck, picked, i, marked) && |marked| + stuck == i
    {
      NextPicked(picked, i);
      ghost var tables := db.View();
      var ok := ReconcileOne(ext, db, picked[i], luck(picked[i]), start, marked);
      ReconciledNext(start, t, tables, luck, picked, i, marked, ok);
      if ok {
        marked := marked + {picked[i]};
      } else {
        stuck := stuck + 1;
      }
    }
  }

  lemma NextPicked(picked: seq<TaskId>, i: nat)
    requires i < |picked| && forall j, k :: 0 <= j < k < |picked| ==> picked[j] != picked[k]
    ensures Ids(picked[..i + 1]) == Ids(picked[..i]) + {picked[i]} && picked[i] !in Ids(picked[..i])
  {
    assert picked[..i + 1] == picked[..i] + [picked[i]];
  }

  /** The tasks among these that meet a hindrance. */
  function Hampered(t: Tables, rows: map<TaskId, Row>, luck: TaskId -> Luck, ids: seq<TaskId>): set<TaskId> {
    set id | id in ids && id in rows && Hindered(t, rows[id].instanceId, luck(id))
  }

  lemma AllReconciled(w: World, t: Tables, w': World, luck: TaskId -> Luck, picked: seq<TaskId>,
                      marked: set<TaskId>, stuck: nat)
    requires ReconciledUpTo(w, t, luck, picked, |picked|, marked) && |marked| + stuck == |picked|
    requires OnlyMarks(w, w', marked)
    requires OldestFirst(Backlog(w.rows, w.now - GRACE), Ages(w.rows), BATCH, picked)
    ensures Reconciled(w, t, w', luck, picked, marked, stuck)
  {
    assert picked[..|picked|] == picked;
    DistinctCount(picked);
    SubsetSize(marked, Ids(picked));
    assert Ids(picked) - marked <= Hampered(t, w'.rows, luck, picked);
    SubsetSize(Ids(picked) - marked, Hampered(t, w'.rows, luck, picked));
  }

  lemma PickedIsStale(rows: map<TaskId, Row>, cutoff: int, picked: seq<TaskId>)
    requires OldestFirst(Backlog(rows, cutoff), Ages(rows), BATCH, picked)
    ensures forall i :: 0 <= i < |picked| ==> picked[i] in rows && rows[picked[i]].advancedAt.None?
    ensures forall i, j :: 0 <= i < j < |picked| ==> picked[i] != picked[j]
  {
    forall i | 0 <= i < |picked| ensures picked[i] in rows && rows[picked[i]].advancedAt.None? {
      assert picked[i] in Backlog(rows, cutoff);
    }
  }

  /** The oldest stale tasks were picked; the marked ones of them, and nothing else old, changed; the others met
      a hindrance. */
  ghost predicate Reconciled(w: World, t: Tables, w': World, luck: TaskId -> Luck, picked: seq<TaskId>,
                             marked: set<TaskId>, stuck: nat) {
    && OnlyMarks(w, w', marked)
    && OldestFirst(Backlog(w.rows, w.now - GRACE), Ages(w.rows), BATCH, picked)
    && marked <= Ids(picked) && |marked| + stuck == |picked|
    && stuck <= |Hampered(t, w'.rows, luck, picked)|
  }

  /** Reconcile the oldest unadvanced tasks. */
  method Reconcile(ext: Store, db: Database, luck: TaskId -> Luck)
    returns (stuck: nat, picked: seq<TaskId>, ghost marked: set<TaskId>)
    requires CancelInstance.ColumnsFit(db.View())
    modifies ext, db
    ensures CancelInstance.ColumnsFit(db.View()) && KeepsReadable(old(db.View()), db.View())
    ensures Reconciled(old(ext.View()), old(db.View()), ext.View(), luck, picked, marked, stuck)
  {
    ghost var w, t := ext.View(), db.View();
    picked := ext.Unadvanced(BATCH);
    PickedIsStale(w.rows, w.now - GRACE, picked);
    stuck, marked := ReconcileAll(ext, db, luck, picked);
    AllReconciled(w, t, ext.View(), luck, picked, marked, stuck);
  }

  /** What a batch leaves of n. */
  function Left(n: nat): nat {
    if n <= BATCH then 0 else n - BATCH
  }

  lemma IntersectionSize(a: set<TaskId>, b: set<TaskId>)
    ensures |a - b| == |a| - |a * b|
    ensures |a * b| <= |b|
  {
    assert a == (a - b) + (a * b);
    assert b == (b - a) + (a * b);
  }

  /** Oldest first: a batch taken from the whole backlog takes from the older part as much as it can. */
  lemma BatchTakesOldest(rows: map<TaskId, Row>, recent: int, cutoff: int, picked: seq<TaskId>)
    requires cutoff <= recent && OldestFirst(Backlog(rows, recent), Ages(rows), BATCH, picked)
    ensures |Backlog(rows, cutoff) - Ids(picked)| == Left(|Backlog(rows, cutoff)|)
  {
    var old_, all, taken := Backlog(rows, cutoff), Backlog(rows, recent), Ids(picked);
    DistinctCount(picked);
    assert old_ <= all && taken <= all;
    IntersectionSize(old_, taken);
    IntersectionSize(all, taken);
    assert all * taken == taken;
    assert |all| <= BATCH ==> all - taken == {};
    assert old_ - taken <= all - taken;
    if q :| q in old_ - taken {
      forall p | p in taken ensures p in old_ {
        var i :| 0 <= i < |picked| && picked[i] == p;
        assert Ages(rows)[picked[i]] <= Ages(rows)[q];
      }
      assert old_ * taken == taken;
    } else {
      assert old_ - taken == {} && old_ <= taken;
      assert old_ * taken == old_;
    }
  }

  lemma PassShrinks(w: World, w': World, picked: seq<TaskId>, marked: set<TaskId>, stuck: nat, cutoff: int)
    requires OnlyMarks(w, w', marked) && cutoff <= w.now - GRACE
    requires OldestFirst(Backlog(w.rows, w.now - GRACE), Ages(w.rows), BATCH, picked)
    requires marked <= Ids(picked) && |marked| + stuck == |picked|
    ensures |Backlog(w'.rows, cutoff)| <= Left(|Backlog(w.rows, cutoff)|) + stuck
    ensures stuck == 0 ==> |Backlog(w'.rows, cutoff)| == Left(|Backlog(w.rows, cutoff)|)
  {
    MarksLeaveBacklog(w, w', marked, cutoff);
    BatchTakesOldest(w.rows, w.now - GRACE, cutoff, picked);
    DistinctCount(picked);
    MarkedShrinks(Backlog(w.rows, cutoff), Ids(picked), marked);
  }

  lemma MarkedShrinks(older: set<TaskId>, taken: set<TaskId>, marked: set<TaskId>)
    requires marked <= taken
    ensures |older - marked| <= |older - taken| + (|taken| - |marked|)
    ensures |taken| == |marked| ==> older - marked == older - taken
  {
    SubsetSize(marked, taken);
    UnionSize(older - taken, taken - marked);
    assert older - marked <= (older - taken) + (taken - marked);
    SubsetSize(older - marked, (older - taken) + (taken - marked));
    if |taken| == |marked| {
      assert taken - marked == {};
      assert taken == marked;
    }
  }

  lemma UnionSize(a: set<TaskId>, b: set<TaskId>)
    ensures |a + b| <= |a| + |b|
  {
    assert a + b == a + (b - a);
    IntersectionSize(b, a);
  }

  // ---------- poll_once ----------

  /** No contention, and events that take effect. */
  ghost predicate AllClear(luck: TaskId -> Luck) {
    forall id :: luck(id).lockFree && luck(id).moves
  }

  ghost predicate AllReadable(t: Tables) {
    forall i :: Readable(t, i)
  }

  /** What a pass does to every backlog that was old enough at its start: a full batch less, or nothing left. */
  ghost predicate Shrinks(before: map<TaskId, Row>, after: map<TaskId, Row>, recent: int) {
    forall cutoff :: cutoff <= recent ==> |Backlog(after, cutoff)| == Left(|Backlog(before, cutoff)|)
  }

  /** The same, save for the tasks that were stuck. */
  ghost predicate ShrinksBut(before: map<TaskId, Row>, after: map<TaskId, Row>, recent: int, stuck: nat) {
    forall cutoff :: cutoff <= recent ==> |Backlog(after, cutoff)| <= Left(|Backlog(before, cutoff)|) + stuck
  }

  /** Every timer of the batch is completed if the lease lasts, and marked if nothing stood in its way. */
  ghost predicate BatchFired(t: Tables, luck: TaskId -> Luck, due: seq<TaskId>, rows: map<TaskId, Row>) {
    Elapsed(luck, due) < LEASE ==> forall id :: id in due ==>
      id in rows && rows[id].state.COMPLETED?
        && (Hindered(t, rows[id].instanceId, luck(id)) || rows[id].advancedAt.Some?)
  }

  lemma BatchStaysFired(w: World, mid: World, w': World, t: Tables, luck: TaskId -> Luck, due: seq<TaskId>,
                        marked: set<TaskId>)
    requires FiredUpTo(w, t, luck, due, |due|, mid.rows) && OnlyMarks(mid, w', marked)
    ensures BatchFired(t, luck, due, w'.rows)
  {
    if Elapsed(luck, due) < LEASE {
      forall id | id in due
        ensures id in w'.rows && w'.rows[id].state.COMPLETED?
        ensures Hindered(t, w'.rows[id].instanceId, luck(id)) || w'.rows[id].advancedAt.Some?
      {
        FiredInTime(w, t, luck, due, mid.rows, id);
      }
    }
  }

  /** The progress of a pass. */
  ghost predicate Progress(w: World, t: Tables, w': World, luck: TaskId -> Luck, picked: seq<TaskId>, stuck: nat) {
    && |picked| <= BATCH && stuck <= |Hampered(t, w'.rows, luck, picked)|
    && ShrinksBut(w.rows, w'.rows, w.now - GRACE, stuck)
    && (AllClear(luck) && AllReadable(t) ==> stuck == 0 && Shrinks(w.rows, w'.rows, w.now - GRACE))
  }

  lemma HamperedBefore(t: Tables, u: Tables, rows: map<TaskId, Row>, luck: TaskId -> Luck, ids: seq<TaskId>)
    requires KeepsReadable(t, u)
    ensures |Hampered(u, rows, luck, ids)| <= |Hampered(t, rows, luck, ids)|
    ensures AllClear(luck) && AllReadable(t) ==> Hampered(t, rows, luck, ids) == {}
  {
    SubsetSize(Hampered(u, rows, luck, ids), Hampered(t, rows, luck, ids));
  }

  lemma ReconcilingShrinks(w: World, mid: World, u: Tables, w': World, luck: TaskId -> Luck, picked: seq<TaskId>,
                           marked: set<TaskId>, stuck: nat)
    requires BacklogsStay(w, mid) && Reconciled(mid, u, w', luck, picked, marked, stuck)
    ensures ShrinksBut(w.rows, w'.rows, w.now - GRACE, stuck)
    ensures stuck == 0 ==> Shrinks(w.rows, w'.rows, w.now - GRACE)
  {
    forall cutoff | cutoff <= w.now - GRACE
      ensures |Backlog(w'.rows, cutoff)| <= Left(|Backlog(w.rows, cutoff)|) + stuck
      ensures stuck == 0 ==> |Backlog(w'.rows, cutoff)| == Left(|Backlog(w.rows, cutoff)|)
    {
      assert Backlog(mid.rows, cutoff) == Backlog(w.rows, cutoff);
      PassShrinks(mid, w', picked, marked, stuck, cutoff);
    }
  }

  lemma PassProgress(w: World, t: Tables, mid: World, u: Tables, w': World, luck: TaskId -> Luck, picked: seq<TaskId>,
                     marked: set<TaskId>, stuck: nat)
    requires BacklogsStay(w, mid) && KeepsReadable(t, u) && Reconciled(mid, u, w', luck, picked, marked, stuck)
    ensures Progress(w, t, w', luck, picked, stuck) && Reconciled(mid, t, w', luck, picked, marked, stuck)
  {
    HamperedBefore(t, u, w'.rows, luck, picked);
    ReconcilingShrinks(w, mid, u, w', luck, picked, marked, stuck);
  }

  /** One pass. Due timers are fired, which leaves the queue at `mid`. There the oldest stale tasks are picked, and
      those in `marked` are settled. So for every cutoff at least fifteen seconds back, the backlog older than it
      shrinks by a full batch, or to nothing, whenever locks are free, events take effect and instances can be read;
      otherwise save for the picked tasks that met a hindrance. */
  method PollOnce(ext: Store, db: Database, fire: TaskId -> Luck, again: TaskId -> Luck, held: set<TaskId>)
    returns (due: seq<TaskId>, picked: seq<TaskId>, stuck: nat, ghost mid: World, ghost marked: set<TaskId>)
    requires CancelInstance.ColumnsFit(db.View())
    modifies ext, db
    ensures CancelInstance.ColumnsFit(db.View()) && KeepsReadable(old(db.View()), db.View()) && old(ext.now) <= ext.now
    ensures IsBatch(Apply(old(ext.View()), Reclaim), Filter(None, Some("timer:")), 20, held, Ids(due)) && |picked| <= 20
    ensures BatchFired(old(db.View()), fire, due, ext.rows)
    ensures BacklogsStay(old(ext.View()), mid)
    ensures Reconciled(mid, old(db.View()), ext.View(), again, picked, marked, stuck)
    ensures Progress(old(ext.View()), old(db.View()), ext.View(), again, picked, stuck)
  {
    due := FireDue(ext, db, fire, held);
    mid := ext.View();
    ghost var tables := db.View();
    stuck, picked, marked := Reconcile(ext, db, again);
    BatchStaysFired(Apply(old(ext.View()), Reclaim), mid, ext.View(), old(db.View()), fire, due, marked);
    PassProgress(old(ext.View()), old(db.View()), mid, tables, ext.View(), again, picked, marked, stuck);
  }

  // ---------- The loop ----------

  /** One round of the loop: the seconds before the pass, and what its attempts meet. */
  datatype Round = Round(wait: nat, fire: TaskId -> Luck, again: TaskId -> Luck, held: set<TaskId>)

  ghost predicate AllRoundsClear(rounds: seq<Round>) {
    forall i :: 0 <= i < |rounds| ==> AllClear(rounds[i].again)
  }

  function Passes(n: nat, k: nat): nat {
    if n <= k * BATCH then 0 else n - k * BATCH
  }

  /** How often the tasks picked so far met a hindrance. */
  function TotalHampered(t: Tables, rows: map<TaskId, Row>, rounds: seq<Round>, picks: seq<seq<TaskId>>): nat
    requires |picks| <= |rounds|
    decreases |picks|
  {
    if picks == [] then 0
    else
      var last := |picks| - 1;
      TotalHampered(t, rows, rounds, picks[..last]) + |Hampered(t, rows, rounds[last].again, picks[last])|
  }

  lemma {:induction false} TotalStays(t: Tables, rows: map<TaskId, Row>, rows': map<TaskId, Row>, rounds: seq<Round>,
                                      picks: seq<seq<TaskId>>)
    requires |picks| <= |rounds| && KeepsTasks(rows, rows')
    ensures TotalHampered(t, rows, rounds, picks) <= TotalHampered(t, rows', rounds, picks)
    decreases |picks|
  {
    if picks != [] {
      var last := |picks| - 1;
      TotalStays(t, rows, rows', rounds, picks[..last]);
      var luck, picked := rounds[last].again, picks[last];
      SubsetSize(Hampered(t, rows, luck, picked), Hampered(t, rows', luck, picked));
    }
  }

  lemma RoundAdds(t: Tables, u: Tables, rows: map<TaskId, Row>, rows': map<TaskId, Row>, rounds: seq<Round>,
                  picks: seq<seq<TaskId>>, picked: seq<TaskId>, stuck: nat, more: nat)
    requires |picks| < |rounds| && KeepsTasks(rows, rows') && KeepsReadable(t, u)
    requires stuck <= TotalHampered(t, rows, rounds, picks)
    requires more <= |Hampered(u, rows', rounds[|picks|].again, picked)|
    ensures stuck + more <= TotalHampered(t, rows', rounds, picks + [picked])
  {
    TotalStays(t, rows, rows', rounds, picks);
    HamperedBefore(t, u, rows', rounds[|picks|].again, picked);
    assert (picks + [picked])[..|picks|] == picks;
  }

  /** A batch of distinct completed tasks in each round. */
  ghost predicate Picks(rows: map<TaskId, Row>, picks: seq<seq<TaskId>>) {
    forall i :: 0 <= i < |picks| ==> PickedBatch(rows, picks[i])
  }

  ghost predicate PickedBatch(rows: map<TaskId, Row>, picked: seq<TaskId>) {
    && |picked| <= BATCH
    && (forall i, j :: 0 <= i < j < |picked| ==> picked[i] != picked[j])
    && (forall id :: id in picked ==> id in rows && rows[id].state.COMPLETED?)
  }

  lemma PassKeepsTasks(w: World, mid: World, t: Tables, w': World, luck: TaskId -> Luck, picked: seq<TaskId>,
                       marked: set<TaskId>, stuck: nat)
    requires BacklogsStay(w, mid) && Reconciled(mid, t, w', luck, picked, marked, stuck)
    ensures KeepsTasks(w.rows, w'.rows) && PickedBatch(w'.rows, picked)
  {
    forall id | id in picked ensures id in w'.rows && w'.rows[id].state.COMPLETED? {
      assert id in Backlog(mid.rows, mid.now - GRACE);
    }
  }

  lemma PicksStay(rows: map<TaskId, Row>, rows': map<TaskId, Row>, picks: seq<seq<TaskId>>, picked: seq<TaskId>)
    requires KeepsTasks(rows, rows') && Picks(rows, picks) && PickedBatch(rows', picked)
    ensures Picks(rows', picks + [picked])
  {
    forall i | 0 <= i < |picks| ensures PickedBatch(rows', picks[i]) { assert PickedBatch(rows, picks[i]); }
  }

  /** The loop after some rounds: the tasks picked, how often one was stuck, and what is left of the n tasks that were
      stale before the cutoff. */
  ghost predicate Looped(t: Tables, n: nat, cutoff: int, rounds: seq<Round>, rows: map<TaskId, Row>, u: Tables,
                         stuck: nat, picks: seq<seq<TaskId>>) {
    && |picks| <= |rounds| && Picks(rows, picks) && KeepsReadable(t, u)
    && stuck <= TotalHampered(t, rows, rounds, picks)
    && |Backlog(rows, cutoff)| <= Passes(n, |picks|) + stuck
    && (AllRoundsClear(rounds) && AllReadable(t) ==> |Backlog(rows, cutoff)| == Passes(n, |picks|))
  }

  lemma BacklogDrains(w: World, u: Tables, w': World, luck: TaskId -> Luck, picked: seq<TaskId>, more: nat,
                      cutoff: int, n: nat, k: nat, stuck: nat)
    requires Progress(w, u, w', luck, picked, more) && cutoff <= w.now - GRACE
    ensures |Backlog(w.rows, cutoff)| <= Passes(n, k) + stuck ==>
              |Backlog(w'.rows, cutoff)| <= Passes(n, k + 1) + stuck + more
    ensures AllClear(luck) && AllReadable(u) && |Backlog(w.rows, cutoff)| == Passes(n, k) ==>
              |Backlog(w'.rows, cutoff)| == Passes(n, k + 1)
  {
  }

  lemma LoopOnce(t: Tables, n: nat, cutoff: int, rounds: seq<Round>, w: World, u: Tables, mid: World, w': World,
                 v: Tables, stuck: nat, picks: seq<seq<TaskId>>, picked: seq<TaskId>, marked: set<TaskId>, more: nat)
    requires Looped(t, n, cutoff, rounds, w.rows, u, stuck, picks) && |picks| < |rounds| && cutoff <= w.now - GRACE
    requires BacklogsStay(w, mid) && Reconciled(mid, u, w', rounds[|picks|].again, picked, marked, more)
    requires Progress(w, u, w', rounds[|picks|].again, picked, more) && KeepsReadable(u, v)
    ensures Looped(t, n, cutoff, rounds, w'.rows, v, stuck + more, picks + [picked])
  {
    PassKeepsTasks(w, mid, u, w', rounds[|picks|].again, picked, marked, more);
    RoundAdds(t, u, w.rows, w'.rows, rounds, picks, picked, stuck, more);
    PicksStay(w.rows, w'.rows, picks, picked);
    BacklogDrains(w, u, w', rounds[|picks|].again, picked, more, cutoff, n, |picks|, stuck);
    if AllRoundsClear(rounds) && AllReadable(t) {
      forall i ensures Readable(u, i) { assert Readable(t, i); }
    }
  }

  /** The background loop. With locks free, events that take effect and readable instances, whatever was stale at
      the start is down to exactly n - 20 k after k passes, and so gone after n / 20 passes, rounded up, whatever
      else becomes stale meanwhile. Otherwise it is down to that plus the times a picked task met a hindrance. */
  method TimerLoop(ext: Store, db: Database, rounds: seq<Round>) returns (stuck: nat, picks: seq<seq<TaskId>>)
    requires CancelInstance.ColumnsFit(db.View())
    modifies ext, db
    ensures |picks| == |rounds| && Picks(ext.rows, picks)
    ensures stuck <= TotalHampered(old(db.View()), ext.rows, rounds, picks)
    ensures var cutoff := old(ext.now) - 15;
            |Backlog(ext.rows, cutoff)| <= Passes(|Backlog(old(ext.rows), cutoff)|, |rounds|) + stuck
    ensures AllRoundsClear(rounds) && AllReadable(old(db.View())) ==>
              var n, k := |Backlog(old(ext.rows), old(ext.now) - 15)|, |rounds|;
              |Backlog(ext.rows, old(ext.now) - 15)| == if n <= k * 20 then 0 else n - k * 20
  {
    stuck, picks := 0, [];
    ghost var t := db.View();
    ghost var cutoff := ext.now - GRACE;
    ghost var n := |Backlog(ext.rows, cutoff)|;
    for i := 0 to |rounds|
      invariant CancelInstance.ColumnsFit(db.View()) && cutoff <= ext.now - GRACE && |picks| == i
      invariant Looped(t, n, cutoff, rounds, ext.rows, db.View(), stuck, picks)
    {
      ext.now := ext.now + rounds[i].wait;
      ghost var w, u := ext.View(), db.View();
      var due, picked, more;
      ghost var mid, marked;
      due, picked, more, mid, marked := PollOnce(ext, db, rounds[i].fire, rounds[i].again, rounds[i].held);
      LoopOnce(t, n, cutoff, rounds, w, u, mid, ext.View(), db.View(), stuck, picks, picked, marked, more);
      stuck, picks := stuck + more, picks + [picked];
    }
  }
}
