/**
 The advance protocol (external_tasks.rs, timer.rs, routes/process/cancel.rs) as a transition system.
 Any number of completers, reconcilers and cancel requests run interleaved; every SQL statement or
 transaction is one atomic step, and a caller may crash between any two steps, which drops its lock.

 What is assumed of the engine: an event either moves the token, emitting downstream tokens with new
 ids, or silently does nothing; an event for a token that is already gone may still emit a second set.
 Token and instance ids are never reused, a task is created for a waiting token that has had no task
 before, whatever the state of its instance, and a user advances a token by hand only when it has no open task.
 Completion results are empty, as they are for timers.
 */
module AdvanceProtocol {
  import opened Wrappers
  import opened ProcessModel
  import opened TaskTable
  import TaskStore

  type CallerId = nat

  /** The advisory lock key of a task: any function, collisions included. */
  type LockKey = TaskId -> int

  datatype Ref = Ref(inst: InstanceId, token: TokenId)

  /** The part of a fetched task that advancing uses. */
  datatype Task = Task(id: TaskId, ref: Ref)

  datatype Inst = Inst(state: InstanceState, tokens: map<TokenId, TokenStatus>)

  type Insts = map<InstanceId, Inst>

  /** Where a caller stands, with what it has read so far. */
  datatype Caller =
    // complete_and_advance, as called by the poll loop
    | AtComplete(id: TaskId, worker: Worker)
    | AtGet(id: TaskId, worker: Worker)
    | AtFail(id: TaskId, worker: Worker)
    // advance_after_task
    | AtTryLock(t: Task)
    | AtIsAdvanced(t: Task)
    | AtLoadRow(t: Task)
    | AtLoadTokens(t: Task, seen: InstanceState)
    | AtResult(t: Task, tokens: map<TokenId, TokenStatus>)
    | AtSave(t: Task, tokens: map<TokenId, TokenStatus>)
    | AtFire(t: Task)
    | AtCheckRow(t: Task)
    | AtCheckTokens(t: Task)
    | AtMark(t: Task)
    | AtCommit(t: Task)
    // cancel_instance
    | CancelLoad(inst: InstanceId)
    | CancelTokens(inst: InstanceId, seen: InstanceState)
    | CancelSave(inst: InstanceId, tokens: map<TokenId, TokenStatus>)
    | CancelTasks(inst: InstanceId)

  /** The database, and the history that the theorems speak about: every instance, token and task ever
      created, how often an event took effect for a task, and the instances whose cancel ran to its end. */
  datatype Db = Db(
    store: World, insts: Insts,
    usedInsts: set<InstanceId>, usedTokens: set<Ref>, history: map<TaskId, Ref>,
    fired: map<TaskId, nat>, cancelled: set<InstanceId>)

  datatype Sys = Sys(db: Db, locks: map<int, CallerId>, callers: map<CallerId, Caller>)

  // ---------- Reading the database ----------

  predicate IsRunning(m: Insts, i: InstanceId) {
    i in m && m[i].state.Running?
  }

  predicate Has(m: Insts, r: Ref) {
    r.inst in m && r.token in m[r.inst].tokens
  }

  predicate WaitingAt(m: Insts, r: Ref) {
    Has(m, r) && m[r.inst].tokens[r.token].Waiting?
  }

  /** The transition of the token is still owed: its instance runs and still holds it. */
  predicate Owed(m: Insts, r: Ref) {
    IsRunning(m, r.inst) && Has(m, r)
  }

  /** How many events have taken effect for the task. */
  function Fired(fired: map<TaskId, nat>, id: TaskId): nat {
    if id in fired then fired[id] else 0
  }

  function TokensOf(d: Db, i: InstanceId): map<TokenId, TokenStatus> {
    if i in d.insts then d.insts[i].tokens else map[]
  }

  function RefOf(r: Row): Ref {
    Ref(r.instanceId, r.tokenId)
  }

  function TaskFor(d: Db, id: TaskId): Task
    requires id in d.store.rows
  {
    Task(id, RefOf(d.store.rows[id]))
  }

  // ---------- Changing the database ----------

  function WithStore(d: Db, q: TaskTable.Step): Db {
    d.(store := Apply(d.store, q))
  }

  function Refs(i: InstanceId, tokens: map<TokenId, TokenStatus>): set<Ref> {
    set k | k in tokens :: Ref(i, k)
  }

  function Started(d: Db, i: InstanceId, tokens: map<TokenId, TokenStatus>): Db {
    d.(insts := d.insts[i := Inst(Running, tokens)], usedInsts := d.usedInsts + {i},
      usedTokens := d.usedTokens + Refs(i, tokens))
  }

  /** An engine event that takes effect: the token goes, new tokens come, the instance may finish. */
  function MoveToken(d: Db, r: Ref, born: map<TokenId, TokenStatus>, finished: bool): Db
    requires r.inst in d.insts
  {
    var i := d.insts[r.inst];
    var state := if finished && i.state.Running? then InstanceState.Completed else i.state;
    d.(insts := d.insts[r.inst := Inst(state, (i.tokens - {r.token}) + born)],
      usedTokens := d.usedTokens + Refs(r.inst, born))
  }

  /** Cancel ends every token that has not ended. */
  function Kill(tokens: map<TokenId, TokenStatus>): map<TokenId, TokenStatus> {
    map k | k in tokens :: if Terminal(tokens[k]) then tokens[k] else TokenStatus.Terminated
  }

  /** `save` replaces the whole instance by what the caller read earlier. */
  function SaveSnapshot(d: Db, i: InstanceId, state: InstanceState, tokens: map<TokenId, TokenStatus>): Db {
    d.(insts := d.insts[i := Inst(state, tokens)])
  }

  // ---------- What callers do ----------

  /** The caller goes on to k, leaving the database as d. */
  function Goto(s: Sys, d: Db, c: CallerId, k: Caller): Sys {
    s.(db := d, callers := s.callers[c := k])
  }

  /** The caller returns or dies; its transaction, and with it the lock, goes away. */
  function Leave(s: Sys, d: Db, c: CallerId): Sys {
    Sys(d, map k | k in s.locks && s.locks[k] != c :: s.locks[k], s.callers - {c})
  }

  /** The next statement of a caller, the engine event excepted. */
  function Proceed(h: LockKey, s: Sys, c: CallerId): Sys
    requires c in s.callers
  {
    var d := s.db;
    match s.callers[c]
    case AtComplete(id, worker) =>
      if Completable(d.store, id, worker)
      then Goto(s, WithStore(d, Complete(id, worker, map[])), c, AtGet(id, worker))
      else Goto(s, d, c, AtFail(id, worker))
    case AtGet(id, worker) =>
      if id in d.store.rows then Goto(s, d, c, AtTryLock(TaskFor(d, id))) else Goto(s, d, c, AtFail(id, worker))
    case AtFail(id, worker) => Leave(s, WithStore(d, Fail(id, worker, "timer fire failed", Some(5))), c)
    case AtTryLock(t) =>
      if h(t.id) in s.locks then Leave(s, d, c)
      else Goto(s.(locks := s.locks[h(t.id) := c]), d, c, AtIsAdvanced(t))
    case AtIsAdvanced(t) =>
      if t.id !in d.store.rows || d.store.rows[t.id].advancedAt.Some? then Leave(s, d, c)
        else Goto(s, d, c, AtLoadRow(t))
    case AtLoadRow(t) =>
      if t.ref.inst in d.insts then Goto(s, d, c, AtLoadTokens(t, d.insts[t.ref.inst].state))
        else Goto(s, d, c, AtMark(t))
    case AtLoadTokens(t, seen) =>
      if seen.Running? && WaitingAt(d.insts, t.ref) then Goto(s, d, c, AtResult(t, TokensOf(d, t.ref.inst)))
        else Goto(s, d, c, AtMark(t))
    case AtResult(t, tokens) =>
      if t.id in d.store.rows && d.store.rows[t.id].result != map[] then Goto(s, d, c, AtSave(t, tokens))
        else Goto(s, d, c, AtFire(t))
    case AtSave(t, tokens) => Goto(s, SaveSnapshot(d, t.ref.inst, Running, tokens), c, AtFire(t))
    case AtFire(t) => s
    case AtCheckRow(t) =>
      if t.ref.inst in d.insts then Goto(s, d, c, AtCheckTokens(t)) else Goto(s, d, c, AtMark(t))
    case AtCheckTokens(t) => if Has(d.insts, t.ref) then Leave(s, d, c) else Goto(s, d, c, AtMark(t))
    case AtMark(t) => Goto(s, WithStore(d, MarkAdvanced(t.id)), c, AtCommit(t))
    case AtCommit(t) => Leave(s, d, c)
    case CancelLoad(i) => if i in d.insts then Goto(s, d, c, CancelTokens(i, d.insts[i].state)) else Leave(s, d, c)
    case CancelTokens(i, seen) => if seen.Running? then Goto(s, d, c, CancelSave(i, TokensOf(d, i))) else Leave(s, d, c)
    case CancelSave(i, tokens) => Goto(s, SaveSnapshot(d, i, InstanceState.Terminated, Kill(tokens)), c, CancelTasks(i))
    case CancelTasks(i) => Leave(s, WithStore(d, CancelFor(i)).(cancelled := d.cancelled + {i}), c)
  }

  /** The engine event: silently nothing, or the move, which the history counts. */
  function Event(d: Db, t: Task, moved: bool, born: map<TokenId, TokenStatus>, finished: bool): Db {
    if moved && t.ref.inst in d.insts
    then MoveToken(d, t.ref, born, finished).(fired := d.fired[t.id := Fired(d.fired, t.id) + 1])
    else d
  }

  // ---------- Steps ----------

  datatype Act =
    | Queue(q: TaskTable.Step)
    | StartInstance(inst: InstanceId, tokens: map<TokenId, TokenStatus>)
    | CreateTask(id: TaskId, ref: Ref, taskType: string, retries: int, timeout: nat, vars: Variables)
    | UserAdvance(ref: Ref, born: map<TokenId, TokenStatus>, finished: bool)
    | Delete(inst: InstanceId)
    | NewCompleter(c: CallerId, id: TaskId, worker: Worker)
    | NewReconciler(c: CallerId, id: TaskId)
    | NewCancel(c: CallerId, inst: InstanceId)
    | Move(c: CallerId)
    | Fire(c: CallerId, moved: bool, born: map<TokenId, TokenStatus>, finished: bool)
    | Crash(c: CallerId)

  predicate NewIds(d: Db, i: InstanceId, born: map<TokenId, TokenStatus>) {
    forall k :: k in born ==> Ref(i, k) !in d.usedTokens
  }

  /** Every task of the token, if it ever had one, has failed for good. */
  predicate NoOpenTask(d: Db, r: Ref) {
    forall id :: id in d.store.rows && RefOf(d.store.rows[id]) == r ==> d.store.rows[id].state.FAILED?
  }

  ghost predicate Can(s: Sys, step: Act) {
    var d := s.db;
    match step
    case Queue(q) => (q.Tick? || q.LockReady? || q.Fail? || q.Reclaim?) && Enabled(d.store, q)
    case StartInstance(i, _) => i !in d.usedInsts
    case CreateTask(id, r, _, _, _, _) =>
      id !in d.history && WaitingAt(d.insts, r)
      && forall j :: j in d.history ==> d.history[j] != r
    case UserAdvance(r, born, _) => Owed(d.insts, r) && NoOpenTask(d, r) && NewIds(d, r.inst, born)
    case Delete(_) => true
    case NewCompleter(c, _, _) => c !in s.callers
    case NewReconciler(c, id) => c !in s.callers && TaskStore.Stale(d.store.rows, d.store.now - TaskStore.GRACE, id)
    case NewCancel(c, _) => c !in s.callers
    case Move(c) => c in s.callers && !s.callers[c].AtFire?
    case Fire(c, _, born, _) => c in s.callers && s.callers[c].AtFire? && NewIds(d, s.callers[c].t.ref.inst, born)
    case Crash(c) => c in s.callers
  }

  ghost function Do(h: LockKey, s: Sys, step: Act): Sys
    requires Can(s, step)
  {
    var d := s.db;
    match step
    case Queue(q) => s.(db := WithStore(d, q))
    case StartInstance(i, tokens) => s.(db := Started(d, i, tokens))
    case CreateTask(id, r, taskType, retries, timeout, vars) =>
      if Creatable(taskType, timeout)
      then
        var q := Create(id, r.token, r.inst, taskType, retries, timeout, vars);
        s.(db := WithStore(d, q).(history := d.history[id := r]))
      else s
    case UserAdvance(r, born, finished) => s.(db := MoveToken(d, r, born, finished))
    case Delete(i) => s.(db := WithStore(d, DeleteInstance(i)).(insts := d.insts - {i}))
    case NewCompleter(c, id, worker) => Goto(s, d, c, AtComplete(id, worker))
    case NewReconciler(c, id) => Goto(s, d, c, AtTryLock(TaskFor(d, id)))
    case NewCancel(c, i) => Goto(s, d, c, CancelLoad(i))
    case Move(c) => Proceed(h, s, c)
    case Fire(c, moved, born, finished) =>
      Goto(s, Event(d, s.callers[c].t, moved, born, finished), c, AtCheckRow(s.callers[c].t))
    case Crash(c) => Leave(s, d, c)
  }

  // ---------- Runs ----------

  /** Nothing yet: no task, no instance, no caller. */
  function Initial(now: int): Sys {
    Sys(Db(World(now, map[], {}), map[], {}, {}, map[], map[], {}), map[], map[])
  }

  ghost predicate Runs(h: LockKey, s: Sys, steps: seq<Act>)
    decreases |steps|
  {
    steps == [] || (Can(s, steps[0]) && Runs(h, Do(h, s, steps[0]), steps[1..]))
  }

  ghost function EndOf(h: LockKey, s: Sys, steps: seq<Act>): Sys
    requires Runs(h, s, steps)
    decreases |steps|
  {
    if steps == [] then s else EndOf(h, Do(h, s, steps[0]), steps[1..])
  }

  /** Reachable states. */
  ghost predicate Reachable(h: LockKey, s: Sys) {
    exists now, steps :: Runs(h, Initial(now), steps) && EndOf(h, Initial(now), steps) == s
  }
}
