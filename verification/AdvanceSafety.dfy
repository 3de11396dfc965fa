/**
 Safety of the advance protocol over every run: at most one event per task takes effect, nothing is
 recorded as advanced while it is still owed, and a cancelled instance never runs again.
 The invariant is split into what holds of the database and what each caller may rely on.
 */
module AdvanceSafety {
  import opened Wrappers
  import opened ProcessModel
  import opened TaskTable
  import opened AdvanceProtocol
  import TaskStore

  // ---------- The invariant ----------

  type History = map<TaskId, Ref>

  /** Rows agree with the history, and timer results are empty. */
  ghost predicate RowsOk(w: World, history: History) {
    && Inv(w)
    && w.used == history.Keys
    && (forall id :: id in w.rows ==> RefOf(w.rows[id]) == history[id] && w.rows[id].result == map[])
  }

  /** Distinct tasks belong to distinct tokens of used names. */
  ghost predicate HistoryOk(history: History, usedTokens: set<Ref>) {
    && (forall id :: id in history ==> history[id] in usedTokens)
    && (forall a, b :: a in history && b in history && history[a] == history[b] ==> a == b)
  }

  /** Every token and instance in sight has a used name. */
  ghost predicate NamesOk(m: Insts, usedInsts: set<InstanceId>, usedTokens: set<Ref>) {
    && (forall r :: r in usedTokens ==> r.inst in usedInsts)
    && (forall i :: i in m ==> i in usedInsts)
    && (forall r: Ref :: Has(m, r) ==> r in usedTokens)
  }

  /** The token of a task waits as long as its transition is owed, and an event that took effect took it away. */
  ghost predicate TokensOk(m: Insts, history: History, fired: map<TaskId, nat>) {
    && (forall id :: id in history && Owed(m, history[id]) ==> WaitingAt(m, history[id]))
    && (forall id :: id in history && Fired(fired, id) > 0 ==> !WaitingAt(m, history[id]))
    && (forall id :: Fired(fired, id) <= 1)
    && fired.Keys <= history.Keys
  }

  /** An advanced mark stands only on a COMPLETED task whose transition is not owed. */
  ghost predicate AdvancedOk(rows: map<TaskId, Row>, m: Insts) {
    forall id :: id in rows && rows[id].advancedAt.Some? ==> rows[id].state.COMPLETED? && !Owed(m, RefOf(rows[id]))
  }

  /** A cancelled instance does not run. */
  ghost predicate CancelledOk(m: Insts, usedInsts: set<InstanceId>, cancelled: set<InstanceId>) {
    forall i :: i in cancelled ==> i in usedInsts && !IsRunning(m, i)
  }

  ghost predicate DbOk(d: Db) {
    && RowsOk(d.store, d.history)
    && HistoryOk(d.history, d.usedTokens)
    && NamesOk(d.insts, d.usedInsts, d.usedTokens)
    && TokensOk(d.insts, d.history, d.fired)
    && AdvancedOk(d.store.rows, d.insts)
    && CancelledOk(d.insts, d.usedInsts, d.cancelled)
  }

  /** A fetched task is a task of the history, and its row is COMPLETED if it still exists. */
  ghost predicate TaskOk(d: Db, t: Task) {
    && t.id in d.history && d.history[t.id] == t.ref && t.ref.inst in d.usedInsts
    && (t.id in d.store.rows ==> d.store.rows[t.id].state.COMPLETED?)
  }

  /** The caller is past the lock of its task. */
  predicate Inside(k: Caller) {
    || k.AtIsAdvanced? || k.AtLoadRow? || k.AtLoadTokens? || k.AtResult? || k.AtSave? || k.AtFire?
    || k.AtCheckRow? || k.AtCheckTokens? || k.AtMark? || k.AtCommit?
  }

  predicate HoldsLock(h: LockKey, locks: map<int, CallerId>, c: CallerId, id: TaskId) {
    h(id) in locks && locks[h(id)] == c
  }

  /** What a caller at k may rely on in the database, whatever the others do. */
  ghost predicate ReliesOn(d: Db, k: Caller) {
    match k
    case AtGet(id, _) => id in d.history && (id in d.store.rows ==> d.store.rows[id].state.COMPLETED?)
    case AtTryLock(t) => TaskOk(d, t)
    case AtIsAdvanced(t) => TaskOk(d, t)
    case AtLoadRow(t) => TaskOk(d, t)
    case AtLoadTokens(t, seen) => TaskOk(d, t) && (seen.Running? || !IsRunning(d.insts, t.ref.inst))
    case AtResult(t, _) => TaskOk(d, t) && Fired(d.fired, t.id) == 0
    case AtSave(t, _) => false
    case AtFire(t) => TaskOk(d, t) && Fired(d.fired, t.id) == 0
    case AtCheckRow(t) => TaskOk(d, t)
    case AtCheckTokens(t) => TaskOk(d, t)
    case AtMark(t) => TaskOk(d, t) && !Owed(d.insts, t.ref)
    case AtCommit(t) => TaskOk(d, t)
    case CancelTokens(i, _) => i in d.usedInsts
    case CancelSave(i, tokens) => i in d.usedInsts && Refs(i, tokens) <= d.usedTokens
    case CancelTasks(i) => i in d.usedInsts && !IsRunning(d.insts, i)
    case _ => true
  }

  ghost predicate CallerOk(h: LockKey, s: Sys, c: CallerId)
    requires c in s.callers
  {
    && ReliesOn(s.db, s.callers[c])
    && (Inside(s.callers[c]) ==> HoldsLock(h, s.locks, c, s.callers[c].t.id))
  }

  ghost predicate Safe(h: LockKey, s: Sys) {
    DbOk(s.db) && forall c :: c in s.callers ==> CallerOk(h, s, c)
  }

  // ---------- Changes of the database that disturb no caller ----------

  /** Tasks stay known and COMPLETED, instances do not start again, owed transitions do not come back, and
      no event takes effect, except for the tasks in `hit`. */
  ghost predicate Calm(d: Db, e: Db, hit: set<TaskId>) {
    && d.usedInsts <= e.usedInsts && d.usedTokens <= e.usedTokens
    && (forall id :: id in d.history ==> id in e.history && e.history[id] == d.history[id])
    && (forall id :: id in d.history && id in e.store.rows ==>
          id in d.store.rows && (d.store.rows[id].state.COMPLETED? ==> e.store.rows[id].state.COMPLETED?))
    && (forall i :: i in d.usedInsts && IsRunning(e.insts, i) ==> IsRunning(d.insts, i))
    && (forall id :: id in d.history && Owed(e.insts, d.history[id]) ==> Owed(d.insts, d.history[id]))
    && (forall id :: id !in hit ==> Fired(e.fired, id) == Fired(d.fired, id))
  }

  lemma CalmKeepsReliance(d: Db, e: Db, hit: set<TaskId>, k: Caller)
    requires ReliesOn(d, k) && Calm(d, e, hit)
    requires (k.AtResult? || k.AtFire?) ==> k.t.id !in hit
    ensures ReliesOn(e, k)
  {
  }

  lemma CalmIsReflexive(d: Db)
    ensures Calm(d, d, {})
  {
  }

  /** One caller moves on to k, the database changes to e, the others notice nothing. */
  lemma GotoKeeps(h: LockKey, s: Sys, e: Db, c: CallerId, k: Caller, hit: set<TaskId>)
    requires Safe(h, s) && DbOk(e) && Calm(s.db, e, hit)
    requires ReliesOn(e, k) && (Inside(k) ==> HoldsLock(h, s.locks, c, k.t.id))
    requires forall id :: id in hit ==> HoldsLock(h, s.locks, c, id)
    ensures Safe(h, Goto(s, e, c, k))
  {
    var s' := Goto(s, e, c, k);
    forall b | b in s'.callers ensures CallerOk(h, s', b) {
      if b != c {
        assert CallerOk(h, s, b);
        CalmKeepsReliance(s.db, e, hit, s.callers[b]);
      }
    }
  }

  /** A caller leaves, and only its own locks go with it. */
  lemma LeaveKeeps(h: LockKey, s: Sys, e: Db, c: CallerId)
    requires Safe(h, s) && DbOk(e) && Calm(s.db, e, {})
    ensures Safe(h, Leave(s, e, c))
  {
    var s' := Leave(s, e, c);
    forall b | b in s'.callers ensures CallerOk(h, s', b) {
      assert CallerOk(h, s, b);
      CalmKeepsReliance(s.db, e, {}, s.callers[b]);
    }
  }

  /** The environment changes the database. */
  lemma EnvironmentKeeps(h: LockKey, s: Sys, e: Db)
    requires Safe(h, s) && DbOk(e) && Calm(s.db, e, {})
    ensures Safe(h, s.(db := e))
  {
    var s' := s.(db := e);
    forall b | b in s'.callers ensures CallerOk(h, s', b) {
      assert CallerOk(h, s, b);
      CalmKeepsReliance(s.db, e, {}, s.callers[b]);
    }
  }

  // ---------- Statements on the queue ----------

  /** How a queue statement may change one row: marking needs the transition not to be owed. */
  ghost predicate RowMoves(d: Db, r: Row, r': Row) {
    && Evolves(r, r') && r'.result == r.result
    && (r.state.COMPLETED? ==> r'.state.COMPLETED?)
    && (r'.advancedAt.Some? ==> r.advancedAt.Some? || (r.state.COMPLETED? && !Owed(d.insts, RefOf(r))))
  }

  ghost predicate QueueMoves(d: Db, w: World) {
    && Inv(w) && w.used == d.store.used && w.rows.Keys == d.store.rows.Keys
    && forall id :: id in w.rows ==> RowMoves(d, d.store.rows[id], w.rows[id])
  }

  lemma QueueKeepsDb(d: Db, w: World)
    requires DbOk(d) && QueueMoves(d, w)
    ensures DbOk(d.(store := w)) && Calm(d, d.(store := w), {})
  {
    var e := d.(store := w);
    forall id | id in w.rows ensures RefOf(w.rows[id]) == RefOf(d.store.rows[id]) {
      assert RowMoves(d, d.store.rows[id], w.rows[id]);
    }
    assert AdvancedOk(e.store.rows, e.insts) by {
      forall id | id in w.rows && w.rows[id].advancedAt.Some?
        ensures w.rows[id].state.COMPLETED? && !Owed(e.insts, RefOf(w.rows[id]))
      {
        assert RowMoves(d, d.store.rows[id], w.rows[id]);
        assert Owed(e.insts, RefOf(w.rows[id])) <==> Owed(d.insts, RefOf(d.store.rows[id]));
      }
    }
    assert CancelledOk(e.insts, e.usedInsts, e.cancelled) by {
      forall i | i in e.cancelled ensures i in e.usedInsts && !IsRunning(e.insts, i) { assert !IsRunning(d.insts, i); }
    }
    CalmStore(d, e);
  }

  lemma CalmStore(d: Db, e: Db)
    requires DbOk(d) && e == d.(store := e.store) && QueueMoves(d, e.store)
    ensures Calm(d, e, {})
  {
    forall id | id in e.store.rows ensures d.store.rows[id].state.COMPLETED? ==> e.store.rows[id].state.COMPLETED? {
      assert RowMoves(d, d.store.rows[id], e.store.rows[id]);
    }
  }

  /** The statements that callers and workers issue, with empty results, and marks only where nothing is owed. */
  ghost predicate GoodStatement(d: Db, q: TaskTable.Step) {
    && !q.Create? && !q.DeleteInstance? && Enabled(d.store, q)
    && (q.Complete? ==> q.vars == map[])
    && (q.MarkAdvanced? && q.id in d.store.rows ==>
          d.store.rows[q.id].state.COMPLETED? && !Owed(d.insts, RefOf(d.store.rows[q.id])))
  }

  lemma StatementMovesRow(d: Db, q: TaskTable.Step, id: TaskId)
    requires DbOk(d) && GoodStatement(d, q) && id in d.store.rows
    ensures id in Apply(d.store, q).rows
    ensures RowMoves(d, d.store.rows[id], Apply(d.store, q).rows[id])
  {
    StepOnRow(d.store, q, id);
    var r := d.store.rows[id];
    match q
    case Complete(_, _, _) => assert r.result == map[];
    case _ =>
  }

  lemma StatementMovesQueue(d: Db, q: TaskTable.Step)
    requires DbOk(d) && GoodStatement(d, q)
    ensures QueueMoves(d, Apply(d.store, q))
  {
    StepKeepsInv(d.store, q);
    StatementKeepsIds(d.store, q);
    forall id | id in d.store.rows ensures RowMoves(d, d.store.rows[id], Apply(d.store, q).rows[id]) {
      StatementMovesRow(d, q, id);
    }
  }

  lemma StatementKeepsIds(w: World, q: TaskTable.Step)
    requires !q.Create? && !q.DeleteInstance?
    ensures Apply(w, q).rows.Keys == w.rows.Keys && Apply(w, q).used == w.used
  {
  }

  lemma StatementKeepsDb(d: Db, q: TaskTable.Step)
    requires DbOk(d) && GoodStatement(d, q)
    ensures DbOk(WithStore(d, q)) && Calm(d, WithStore(d, q), {})
    ensures WithStore(d, q).insts == d.insts && WithStore(d, q).history == d.history
  {
    StatementMovesQueue(d, q);
    QueueKeepsDb(d, Apply(d.store, q));
  }

  // ---------- Changes of the instances ----------

  /** Instances change so that owed transitions and waiting tokens only go away, or appear under new names. */
  ghost predicate TakesAway(d: Db, e: Db) {
    && e == d.(insts := e.insts, usedInsts := e.usedInsts, usedTokens := e.usedTokens)
    && d.usedInsts <= e.usedInsts && d.usedTokens <= e.usedTokens
    && (forall r :: r in e.usedTokens ==> r.inst in e.usedInsts)
    && (forall i :: i in e.insts ==> i in e.usedInsts)
    && (forall r: Ref :: Has(e.insts, r) ==> r in e.usedTokens)
    && (forall i :: i in d.usedInsts && IsRunning(e.insts, i) ==> IsRunning(d.insts, i))
    && (forall r :: r in d.usedTokens && WaitingAt(e.insts, r) ==> WaitingAt(d.insts, r))
    && (forall r :: r in d.usedTokens && Owed(e.insts, r) ==>
          Owed(d.insts, r) && (WaitingAt(d.insts, r) ==> WaitingAt(e.insts, r)))
  }

  lemma InstancesKeepDb(d: Db, e: Db)
    requires DbOk(d) && TakesAway(d, e)
    ensures DbOk(e) && Calm(d, e, {})
  {
    forall id | id in d.history ensures d.history[id] in d.usedTokens && Fired(e.fired, id) == Fired(d.fired, id) {}
    assert TokensOk(e.insts, e.history, e.fired) by {
      forall id ensures Fired(e.fired, id) <= 1 { assert Fired(d.fired, id) <= 1; }
    }
    assert AdvancedOk(e.store.rows, e.insts) by {
      forall id | id in e.store.rows && e.store.rows[id].advancedAt.Some?
        ensures !Owed(e.insts, RefOf(e.store.rows[id]))
      {
        assert RefOf(d.store.rows[id]) == d.history[id];
      }
    }
  }

  lemma StartTakesAway(d: Db, i: InstanceId, tokens: map<TokenId, TokenStatus>)
    requires DbOk(d) && i !in d.usedInsts
    ensures TakesAway(d, Started(d, i, tokens))
  {
  }

  lemma MoveTakesAway(d: Db, r: Ref, born: map<TokenId, TokenStatus>, finished: bool)
    requires DbOk(d) && r.inst in d.insts && NewIds(d, r.inst, born)
    ensures TakesAway(d, MoveToken(d, r, born, finished))
    ensures r in d.usedTokens ==> !Has(MoveToken(d, r, born, finished).insts, r)
  {
  }

  lemma CancelTakesAway(d: Db, i: InstanceId, tokens: map<TokenId, TokenStatus>)
    requires DbOk(d) && i in d.usedInsts && Refs(i, tokens) <= d.usedTokens
    ensures TakesAway(d, SaveSnapshot(d, i, InstanceState.Terminated, Kill(tokens)))
    ensures !IsRunning(SaveSnapshot(d, i, InstanceState.Terminated, Kill(tokens)).insts, i)
  {
    forall k | k in tokens ensures Ref(i, k) in d.usedTokens { assert Ref(i, k) in Refs(i, tokens); }
  }

  // ---------- The remaining changes ----------

  function WithNewTask(d: Db, id: TaskId, r: Ref, row: Row): Db {
    d.(store := World(d.store.now, d.store.rows[id := row], d.store.used + {id}), history := d.history[id := r])
  }

  lemma NewTaskKeepsRows(d: Db, id: TaskId, r: Ref, row: Row)
    requires RowsOk(d.store, d.history) && RefOf(row) == r && row.result == map[]
    requires LeaseOk(row) && DueOk(row, d.store.now) && id !in d.history
    ensures RowsOk(WithNewTask(d, id, r, row).store, WithNewTask(d, id, r, row).history)
  {
  }

  lemma NewTaskKeepsTokens(m: Insts, history: History, fired: map<TaskId, nat>, usedTokens: set<Ref>, id: TaskId,
                           r: Ref)
    requires HistoryOk(history, usedTokens) && TokensOk(m, history, fired) && r in usedTokens
    requires id !in history && WaitingAt(m, r) && forall j :: j in history ==> history[j] != r
    ensures HistoryOk(history[id := r], usedTokens) && TokensOk(m, history[id := r], fired)
  {
    assert Fired(fired, id) == 0;
  }

  lemma NewTaskKeepsDb(d: Db, id: TaskId, r: Ref, row: Row)
    requires DbOk(d) && RefOf(row) == r && row.state.READY? && row.result == map[] && row.advancedAt.None?
    requires LeaseOk(row) && DueOk(row, d.store.now)
    requires id !in d.history && WaitingAt(d.insts, r)
             && forall j :: j in d.history ==> d.history[j] != r
    ensures DbOk(WithNewTask(d, id, r, row))
  {
    var e := WithNewTask(d, id, r, row);
    assert Has(d.insts, r);
    NewTaskKeepsRows(d, id, r, row);
    NewTaskKeepsTokens(d.insts, d.history, d.fired, d.usedTokens, id, r);
    assert AdvancedOk(e.store.rows, e.insts);
    assert CancelledOk(e.insts, e.usedInsts, e.cancelled);
  }

  lemma CreateKeepsDb(d: Db, id: TaskId, r: Ref, taskType: string, retries: int, timeout: nat, vars: Variables)
    requires DbOk(d) && Creatable(taskType, timeout)
    requires id !in d.history && WaitingAt(d.insts, r)
             && forall j :: j in d.history ==> d.history[j] != r
    ensures var e := WithStore(d,
            Create(id, r.token, r.inst, taskType, retries, timeout, vars)).(history := d.history[id := r]);
            DbOk(e) && Calm(d, e, {})
  {
    var row := NewRow(d.store.now, r.token, r.inst, taskType, retries, vars);
    NewTaskKeepsDb(d, id, r, row);
    assert WithNewTask(d, id, r, row) == WithStore(d,
      Create(id, r.token, r.inst, taskType, retries, timeout, vars)).(history := d.history[id := r]);
  }

  lemma DeleteKeepsRows(d: Db, i: InstanceId)
    requires DbOk(d)
    ensures var e := WithStore(d, DeleteInstance(i)).(insts := d.insts - {i});
            RowsOk(e.store, e.history) && AdvancedOk(e.store.rows, e.insts)
              && CancelledOk(e.insts, e.usedInsts, e.cancelled)
  {
    var e := WithStore(d, DeleteInstance(i)).(insts := d.insts - {i});
    StepKeepsInv(d.store, DeleteInstance(i));
    forall r: Ref ensures Owed(e.insts, r) ==> Owed(d.insts, r) {}
    forall j | j in e.cancelled ensures j in e.usedInsts && !IsRunning(e.insts, j) { assert !IsRunning(d.insts, j); }
  }

  lemma DeleteKeepsTokens(m: Insts, i: InstanceId, history: History, fired: map<TaskId, nat>,
                          usedInsts: set<InstanceId>, usedTokens: set<Ref>)
    requires NamesOk(m, usedInsts, usedTokens) && TokensOk(m, history, fired)
    ensures NamesOk(m - {i}, usedInsts, usedTokens) && TokensOk(m - {i}, history, fired)
    ensures forall r: Ref :: Owed(m - {i}, r) ==> Owed(m, r)
  {
    forall r: Ref ensures Has(m - {i}, r) ==> Has(m, r) && (WaitingAt(m - {i}, r) <==> WaitingAt(m, r)) {}
  }

  lemma DeleteKeepsDb(d: Db, i: InstanceId)
    requires DbOk(d)
    ensures var e := WithStore(d, DeleteInstance(i)).(insts := d.insts - {i}); DbOk(e) && Calm(d, e, {})
  {
    var e := WithStore(d, DeleteInstance(i)).(insts := d.insts - {i});
    DeleteKeepsRows(d, i);
    DeleteKeepsTokens(d.insts, i, d.history, d.fired, d.usedInsts, d.usedTokens);
    DeleteIsCalm(d, e, i);
  }

  lemma DeleteIsCalm(d: Db, e: Db, i: InstanceId)
    requires e == d.(store := e.store, insts := d.insts - {i})
    requires forall id :: id in e.store.rows ==> id in d.store.rows && e.store.rows[id] == d.store.rows[id]
    ensures Calm(d, e, {})
  {
    forall r: Ref ensures Owed(e.insts, r) ==> Owed(d.insts, r) {}
  }

  lemma RecordCancelKeepsDb(m: Db, i: InstanceId)
    requires DbOk(m) && i in m.usedInsts && !IsRunning(m.insts, i)
    ensures DbOk(m.(cancelled := m.cancelled + {i}))
  {
  }

  /** The last write of a cancel: whatever was open is closed, and the cancel is on record. */
  lemma CancelTasksKeepsDb(d: Db, i: InstanceId)
    requires DbOk(d) && i in d.usedInsts && !IsRunning(d.insts, i)
    ensures var e := WithStore(d, CancelFor(i)).(cancelled := d.cancelled + {i}); DbOk(e) && Calm(d, e, {})
  {
    StatementKeepsDb(d, CancelFor(i));
    RecordCancelKeepsDb(WithStore(d, CancelFor(i)), i);
  }

  lemma CalmTransitive(d: Db, m: Db, e: Db, hit: set<TaskId>)
    requires Calm(d, m, {}) && Calm(m, e, hit)
    ensures Calm(d, e, hit)
  {
    forall id | id !in hit
      ensures Fired(e.fired, id) == Fired(d.fired, id)
    {
      assert Fired(m.fired, id) == Fired(d.fired, id);
    }
  }

  /** An event that takes effect, by a caller that may rely on none having done so before. */
  lemma EventKeepsDb(d: Db, t: Task, moved: bool, born: map<TokenId, TokenStatus>, finished: bool)
    requires DbOk(d) && TaskOk(d, t) && Fired(d.fired, t.id) == 0 && NewIds(d, t.ref.inst, born)
    ensures DbOk(Event(d, t, moved, born, finished)) && Calm(d, Event(d, t, moved, born, finished), {t.id})
  {
    if moved && t.ref.inst in d.insts {
      var m := MoveToken(d, t.ref, born, finished);
      MoveTakesAway(d, t.ref, born, finished);
      InstancesKeepDb(d, m);
      CountKeepsDb(m, t);
      CalmTransitive(d, m, m.(fired := m.fired[t.id := 1]), {t.id});
      EventIsMoveAndCount(d, t, born, finished);
    }
  }

  lemma EventIsMoveAndCount(d: Db, t: Task, born: map<TokenId, TokenStatus>, finished: bool)
    requires t.ref.inst in d.insts && Fired(d.fired, t.id) == 0
    ensures var m := MoveToken(d, t.ref, born, finished);
            Event(d, t, true, born, finished) == m.(fired := m.fired[t.id := 1])
  {
  }

  lemma CountKeepsDb(m: Db, t: Task)
    requires DbOk(m) && t.id in m.history && m.history[t.id] == t.ref && Fired(m.fired, t.id) == 0
             && !Has(m.insts, t.ref)
    ensures var e := m.(fired := m.fired[t.id := 1]); DbOk(e) && Calm(m, e, {t.id})
  {
    var e := m.(fired := m.fired[t.id := 1]);
    forall j ensures Fired(e.fired, j) == if j == t.id then 1 else Fired(m.fired, j) {}
    forall r: Ref
      ensures Has(e.insts, r) == Has(m.insts, r) && WaitingAt(e.insts, r) == WaitingAt(m.insts, r)
              && Owed(e.insts, r) == Owed(m.insts, r)
    {}
    forall j ensures IsRunning(e.insts, j) == IsRunning(m.insts, j) {}
  }

  // ---------- Every step is safe ----------

  lemma StayKeeps(h: LockKey, s: Sys, c: CallerId, k: Caller)
    requires Safe(h, s) && ReliesOn(s.db, k) && (Inside(k) ==> HoldsLock(h, s.locks, c, k.t.id))
    ensures Safe(h, Goto(s, s.db, c, k))
  {
    CalmIsReflexive(s.db);
    GotoKeeps(h, s, s.db, c, k, {});
  }

  lemma QuitKeeps(h: LockKey, s: Sys, c: CallerId)
    requires Safe(h, s)
    ensures Safe(h, Leave(s, s.db, c))
  {
    CalmIsReflexive(s.db);
    LeaveKeeps(h, s, s.db, c);
  }

  /** Taking a free lock disturbs nobody. */
  lemma LockKeeps(h: LockKey, s: Sys, c: CallerId, t: Task)
    requires Safe(h, s) && TaskOk(s.db, t) && h(t.id) !in s.locks
    ensures Safe(h, Goto(s.(locks := s.locks[h(t.id) := c]), s.db, c, AtIsAdvanced(t)))
  {
    var s' := s.(locks := s.locks[h(t.id) := c]);
    forall b | b in s'.callers ensures CallerOk(h, s', b) { assert CallerOk(h, s, b); }
    StayKeeps(h, s', c, AtIsAdvanced(t));
  }

  lemma CompletedIsKnown(d: Db, id: TaskId, worker: Worker)
    requires DbOk(d) && Completable(d.store, id, worker)
    ensures ReliesOn(WithStore(d, Complete(id, worker, map[])), AtGet(id, worker))
  {
  }

  lemma CompleteKeepsDb(d: Db, id: TaskId, worker: Worker)
    requires DbOk(d) && Completable(d.store, id, worker)
    ensures var e := WithStore(d, Complete(id, worker, map[]));
            DbOk(e) && Calm(d, e, {}) && ReliesOn(e, AtGet(id, worker))
  {
    assert GoodStatement(d, Complete(id, worker, map[]));
    StatementKeepsDb(d, Complete(id, worker, map[]));
    CompletedIsKnown(d, id, worker);
  }

  lemma CompleteStepSafe(h: LockKey, s: Sys, c: CallerId)
    requires Safe(h, s) && c in s.callers && s.callers[c].AtComplete?
    ensures Safe(h, Proceed(h, s, c))
  {
    var k, d := s.callers[c], s.db;
    if Completable(d.store, k.id, k.worker) {
      CompleteKeepsDb(d, k.id, k.worker);
      GotoKeeps(h, s, WithStore(d, Complete(k.id, k.worker, map[])), c, AtGet(k.id, k.worker), {});
    } else {
      StayKeeps(h, s, c, AtFail(k.id, k.worker));
    }
  }

  lemma FetchedTaskOk(d: Db, id: TaskId)
    requires DbOk(d) && id in d.store.rows && d.store.rows[id].state.COMPLETED?
    ensures TaskOk(d, TaskFor(d, id))
  {
  }

  lemma FetchStepSafe(h: LockKey, s: Sys, c: CallerId)
    requires Safe(h, s) && c in s.callers && (s.callers[c].AtGet? || s.callers[c].AtFail?)
    ensures Safe(h, Proceed(h, s, c))
  {
    var k, d := s.callers[c], s.db;
    assert CallerOk(h, s, c);
    if k.AtFail? {
      var q := Fail(k.id, k.worker, "timer fire failed", Some(5));
      StatementKeepsDb(d, q);
      LeaveKeeps(h, s, WithStore(d, q), c);
    } else if k.id in d.store.rows {
      FetchedTaskOk(d, k.id);
      StayKeeps(h, s, c, AtTryLock(TaskFor(d, k.id)));
    } else {
      StayKeeps(h, s, c, AtFail(k.id, k.worker));
    }
  }

  /** From the lock to the decision whether the event is needed. */
  lemma DecideStepSafe(h: LockKey, s: Sys, c: CallerId)
    requires Safe(h, s) && c in s.callers
    requires var k := s.callers[c]; k.AtTryLock? || k.AtIsAdvanced? || k.AtLoadRow? || k.AtLoadTokens?
    ensures Safe(h, Proceed(h, s, c))
  {
    var d := s.db;
    assert CallerOk(h, s, c);
    match s.callers[c]
    case AtTryLock(t) => if h(t.id) in s.locks { QuitKeeps(h, s, c); } else { LockKeeps(h, s, c, t); }
    case AtIsAdvanced(t) =>
      if t.id !in d.store.rows || d.store.rows[t.id].advancedAt.Some? {
        QuitKeeps(h, s, c);
      } else {
        StayKeeps(h, s, c, AtLoadRow(t));
      }
    case AtLoadRow(t) =>
      if t.ref.inst in d.insts {
        StayKeeps(h, s, c, AtLoadTokens(t, d.insts[t.ref.inst].state));
      } else {
        StayKeeps(h, s, c, AtMark(t));
      }
    case AtLoadTokens(t, seen) =>
      LoadedTokensTell(d, t);
      if seen.Running? && WaitingAt(d.insts, t.ref) {
        StayKeeps(h, s, c, AtResult(t, TokensOf(d, t.ref.inst)));
      } else {
        StayKeeps(h, s, c, AtMark(t));
      }
  }

  /** A waiting token tells that no event took effect; a token not waiting, that nothing is owed. */
  lemma LoadedTokensTell(d: Db, t: Task)
    requires DbOk(d) && TaskOk(d, t)
    ensures if WaitingAt(d.insts, t.ref) then Fired(d.fired, t.id) == 0 else !Owed(d.insts, t.ref)
  {
  }

  /** From the result to the commit. */
  lemma FinishStepSafe(h: LockKey, s: Sys, c: CallerId)
    requires Safe(h, s) && c in s.callers
    requires var k := s.callers[c]; k.AtResult? || k.AtCheckRow? || k.AtCheckTokens? || k.AtMark? || k.AtCommit?
    ensures Safe(h, Proceed(h, s, c))
  {
    var d := s.db;
    assert CallerOk(h, s, c);
    match s.callers[c]
    case AtResult(t, tokens) => StayKeeps(h, s, c, AtFire(t));
    case AtCheckRow(t) =>
      if t.ref.inst in d.insts { StayKeeps(h, s, c, AtCheckTokens(t)); } else { StayKeeps(h, s, c, AtMark(t)); }
    case AtCheckTokens(t) => if Has(d.insts, t.ref) { QuitKeeps(h, s, c); } else { StayKeeps(h, s, c, AtMark(t)); }
    case AtMark(t) =>
      MarkKeepsDb(d, t);
      GotoKeeps(h, s, WithStore(d, MarkAdvanced(t.id)), c, AtCommit(t), {});
    case AtCommit(t) => QuitKeeps(h, s, c);
  }

  lemma MarkKeepsDb(d: Db, t: Task)
    requires DbOk(d) && TaskOk(d, t) && !Owed(d.insts, t.ref)
    ensures var e := WithStore(d, MarkAdvanced(t.id)); DbOk(e) && Calm(d, e, {}) && TaskOk(e, t)
  {
    assert GoodStatement(d, MarkAdvanced(t.id));
    StatementKeepsDb(d, MarkAdvanced(t.id));
    assert ReliesOn(d, AtCommit(t));
    CalmKeepsReliance(d, WithStore(d, MarkAdvanced(t.id)), {}, AtCommit(t));
  }

  lemma CancelStepSafe(h: LockKey, s: Sys, c: CallerId)
    requires Safe(h, s) && c in s.callers
    requires var k := s.callers[c]; k.CancelLoad? || k.CancelTokens? || k.CancelSave? || k.CancelTasks?
    ensures Safe(h, Proceed(h, s, c))
  {
    var d := s.db;
    assert CallerOk(h, s, c);
    match s.callers[c]
    case CancelLoad(i) =>
      if i in d.insts { StayKeeps(h, s, c, CancelTokens(i, d.insts[i].state)); } else { QuitKeeps(h, s, c); }
    case CancelTokens(i, seen) =>
      SnapshotIsUsed(d, i);
      if seen.Running? { StayKeeps(h, s, c, CancelSave(i, TokensOf(d, i))); } else { QuitKeeps(h, s, c); }
    case CancelSave(i, tokens) =>
      var e := SaveSnapshot(d, i, InstanceState.Terminated, Kill(tokens));
      CancelTakesAway(d, i, tokens);
      InstancesKeepDb(d, e);
      GotoKeeps(h, s, e, c, CancelTasks(i), {});
    case CancelTasks(i) =>
      CancelTasksKeepsDb(d, i);
      LeaveKeeps(h, s, WithStore(d, CancelFor(i)).(cancelled := d.cancelled + {i}), c);
  }

  lemma SnapshotIsUsed(d: Db, i: InstanceId)
    requires DbOk(d)
    ensures Refs(i, TokensOf(d, i)) <= d.usedTokens
  {
    forall r | r in Refs(i, TokensOf(d, i)) ensures r in d.usedTokens { assert Has(d.insts, r); }
  }

  lemma FireStepSafe(h: LockKey, s: Sys, step: Act)
    requires Safe(h, s) && step.Fire? && Can(s, step)
    ensures Safe(h, Do(h, s, step))
  {
    var c := step.c;
    var t := s.callers[c].t;
    assert CallerOk(h, s, c);
    var e := Event(s.db, t, step.moved, step.born, step.finished);
    EventKeepsDb(s.db, t, step.moved, step.born, step.finished);
    GotoKeeps(h, s, e, c, AtCheckRow(t), {t.id});
  }

  lemma EnvironmentStepSafe(h: LockKey, s: Sys, step: Act)
    requires Safe(h, s) && Can(s, step)
    requires step.Queue? || step.StartInstance? || step.CreateTask? || step.UserAdvance? || step.Delete?
    ensures Safe(h, Do(h, s, step))
  {
    var d := s.db;
    match step
    case Queue(q) =>
      StatementKeepsDb(d, q);
      EnvironmentKeeps(h, s, WithStore(d, q));
    case StartInstance(i, tokens) =>
      StartTakesAway(d, i, tokens);
      InstancesKeepDb(d, Started(d, i, tokens));
      EnvironmentKeeps(h, s, Started(d, i, tokens));
    case CreateTask(id, r, taskType, retries, timeout, vars) =>
      if Creatable(taskType, timeout) {
        CreateKeepsDb(d, id, r, taskType, retries, timeout, vars);
        EnvironmentKeeps(h, s, Do(h, s, step).db);
      }
    case UserAdvance(r, born, finished) =>
      MoveTakesAway(d, r, born, finished);
      InstancesKeepDb(d, MoveToken(d, r, born, finished));
      EnvironmentKeeps(h, s, MoveToken(d, r, born, finished));
    case Delete(i) =>
      DeleteKeepsDb(d, i);
      EnvironmentKeeps(h, s, Do(h, s, step).db);
  }

  lemma StepSafe(h: LockKey, s: Sys, step: Act)
    requires Safe(h, s) && Can(s, step)
    ensures Safe(h, Do(h, s, step))
  {
    match step
    case NewCompleter(c, id, worker) => StayKeeps(h, s, c, AtComplete(id, worker));
    case NewReconciler(c, id) => FetchedTaskOk(s.db, id); StayKeeps(h, s, c, AtTryLock(TaskFor(s.db, id)));
    case NewCancel(c, i) => StayKeeps(h, s, c, CancelLoad(i));
    case Crash(c) => QuitKeeps(h, s, c);
    case Fire(_, _, _, _) => FireStepSafe(h, s, step);
    case Move(c) => MoveStepSafe(h, s, c);
    case _ => EnvironmentStepSafe(h, s, step);
  }

  lemma MoveStepSafe(h: LockKey, s: Sys, c: CallerId)
    requires Safe(h, s) && c in s.callers && !s.callers[c].AtFire?
    ensures Safe(h, Proceed(h, s, c))
  {
    assert CallerOk(h, s, c);
    match s.callers[c]
    case AtComplete(_, _) => CompleteStepSafe(h, s, c);
    case AtGet(_, _) => FetchStepSafe(h, s, c);
    case AtFail(_, _) => FetchStepSafe(h, s, c);
    case AtTryLock(_) => DecideStepSafe(h, s, c);
    case AtIsAdvanced(_) => DecideStepSafe(h, s, c);
    case AtLoadRow(_) => DecideStepSafe(h, s, c);
    case AtLoadTokens(_, _) => DecideStepSafe(h, s, c);
    case CancelLoad(_) => CancelStepSafe(h, s, c);
    case CancelTokens(_, _) => CancelStepSafe(h, s, c);
    case CancelSave(_, _) => CancelStepSafe(h, s, c);
    case CancelTasks(_) => CancelStepSafe(h, s, c);
    case _ => FinishStepSafe(h, s, c);
  }

  /** The statements that write nothing. */
  predicate OnlyReads(k: Caller) {
    !k.AtComplete? && !k.AtFail? && !k.AtMark? && !k.AtSave? && !k.CancelSave? && !k.CancelTasks?
  }

  lemma ReadKeepsDb(h: LockKey, s: Sys, c: CallerId)
    requires c in s.callers && OnlyReads(s.callers[c])
    ensures Proceed(h, s, c).db == s.db
  {
  }

  /** No statement but the event counts anything, or changes what is known. */
  lemma MoveFiresNothing(h: LockKey, s: Sys, c: CallerId)
    requires c in s.callers
    ensures var e := Proceed(h, s, c).db;
            e.fired == s.db.fired && e.history == s.db.history && e.usedInsts == s.db.usedInsts
  {
    if OnlyReads(s.callers[c]) { ReadKeepsDb(h, s, c); }
  }

  // ---------- Theorems over runs ----------

  lemma {:induction false} RunSafe(h: LockKey, s: Sys, steps: seq<Act>)
    requires Safe(h, s) && Runs(h, s, steps)
    ensures Safe(h, EndOf(h, s, steps))
    decreases |steps|
  {
    if steps != [] {
      StepSafe(h, s, steps[0]);
      RunSafe(h, Do(h, s, steps[0]), steps[1..]);
    }
  }

  lemma ReachableSafe(h: LockKey, s: Sys)
    requires Reachable(h, s)
    ensures Safe(h, s)
  {
    var now, steps :| Runs(h, Initial(now), steps) && EndOf(h, Initial(now), steps) == s;
    assert Safe(h, Initial(now));
    RunSafe(h, Initial(now), steps);
  }

  /** In every interleaving of any number of callers, with crashes anywhere and any collisions of the lock
      key, at most one engine event per task takes effect. */
  lemma AtMostOneEvent(h: LockKey, s: Sys, id: TaskId)
    requires Reachable(h, s)
    ensures Fired(s.db.fired, id) <= 1
  {
    ReachableSafe(h, s);
  }

  /** No transition is recorded as done while it is still owed: a task marked advanced is COMPLETED, and its
      instance is gone, no longer running, or no longer holds the token. */
  lemma AdvancedMeansSettled(h: LockKey, s: Sys, id: TaskId)
    requires Reachable(h, s) && id in s.db.store.rows && s.db.store.rows[id].advancedAt.Some?
    ensures var r, m := s.db.store.rows[id], s.db.insts;
            && r.state.COMPLETED?
            && (r.instanceId !in m || !m[r.instanceId].state.Running? || r.tokenId !in m[r.instanceId].tokens)
  {
    ReachableSafe(h, s);
  }

  /** Two callers are never past the lock of the same task. */
  lemma OneInsidePerTask(h: LockKey, s: Sys, a: CallerId, b: CallerId)
    requires Reachable(h, s) && a in s.callers && b in s.callers
    requires Inside(s.callers[a]) && Inside(s.callers[b]) && s.callers[a].t.id == s.callers[b].t.id
    ensures a == b
  {
    ReachableSafe(h, s);
    assert CallerOk(h, s, a) && CallerOk(h, s, b);
  }

  /** Once a cancel has run to its end, the instance never runs again, on any continuation, serialised or not. */
  lemma CancelIsFinal(h: LockKey, s: Sys, i: InstanceId, steps: seq<Act>)
    requires Reachable(h, s) && i in s.db.cancelled && Runs(h, s, steps)
    ensures !IsRunning(EndOf(h, s, steps).db.insts, i)
  {
    ReachableSafe(h, s);
    RunSafe(h, s, steps);
    CancelledGrows(h, s, steps);
  }

  lemma CancelledGrowsInStep(h: LockKey, s: Sys, a: Act)
    requires Can(s, a)
    ensures s.db.cancelled <= Do(h, s, a).db.cancelled
  {
  }

  lemma {:induction false} CancelledGrows(h: LockKey, s: Sys, steps: seq<Act>)
    requires Runs(h, s, steps)
    ensures s.db.cancelled <= EndOf(h, s, steps).db.cancelled
    decreases |steps|
  {
    if steps != [] {
      CancelledGrowsInStep(h, s, steps[0]);
      CancelledGrows(h, Do(h, s, steps[0]), steps[1..]);
    }
  }
}
