/**
 The external task queue (pg_external_task_store.rs) as a table and its statements. Each SQL statement
 is one atomic step; a run is any sequence of steps, by any workers, under a clock that only moves
 forward. Times are integer seconds.
 */
module TaskTable {
  import opened Wrappers
  import opened ProcessModel
  import opened TimerTypes

  type TaskId = nat
  type Worker = string

  datatype TaskState = READY | LOCKED | COMPLETED | FAILED

  datatype Row = Row(
    tokenId: TokenId, instanceId: InstanceId, taskType: string, state: TaskState,
    lockOwner: Option<Worker>, lockExpireAt: Option<int>, retries: int, errorMessage: Option<string>,
    variables: Variables, result: Variables, dueAt: int, advancedAt: Option<int>,
    createdAt: int, updatedAt: int)

  /** The table, the database clock, and every id ever drawn: ids are random and never drawn twice. */
  datatype World = World(now: int, rows: map<TaskId, Row>, used: set<TaskId>)

  const I32_MIN: int := -0x8000_0000
  const I64_LIMIT: int := 0x8000_0000_0000_0000

  predicate Open(r: Row) {
    r.state.READY? || r.state.LOCKED?
  }

  // ---------- Statements ----------

  /** The delay of a task type: a timer's duration, and nothing for everything else. */
  function Delay(taskType: string): nat {
    match ParseTimer(taskType)
    case Some(Success(d)) => d
    case _ => 0
  }

  /** Creation is refused for a malformed timer and for a timeout that does not fit the column. */
  predicate Creatable(taskType: string, timeout: nat) {
    !Malformed(taskType) && timeout < I64_LIMIT
  }

  function NewRow(now: int, token: TokenId, inst: InstanceId, taskType: string, retries: int, vars: Variables): Row {
    Row(token, inst, taskType, READY, None, None, retries, None, vars, map[], now + Delay(taskType), None, now, now)
  }

  /** Exact types and a LIKE 'prefix%' pattern; an absent filter admits everything. */
  datatype Filter = Filter(types: Option<seq<string>>, prefix: Option<string>)

  predicate Admits(f: Filter, taskType: string) {
    && (f.types.Some? ==> taskType in f.types.value)
    && (f.prefix.Some? ==> f.prefix.value <= taskType)
  }

  predicate Eligible(w: World, f: Filter, id: TaskId) {
    && id in w.rows && w.rows[id].state.READY? && w.rows[id].dueAt <= w.now
    && Admits(f, w.rows[id].taskType)
  }

  function EligibleIds(w: World, f: Filter): set<TaskId> {
    set id | id in w.rows && Eligible(w, f, id)
  }

  /** Oldest due first, at most limit, passing over the rows that other sessions hold. */
  ghost predicate IsBatch(w: World, f: Filter, limit: nat, held: set<TaskId>, picked: set<TaskId>) {
    var free := EligibleIds(w, f) - held;
    && picked <= free
    && |picked| == (if |free| < limit then |free| else limit)
    && forall p, q :: p in picked && q in free - picked ==> w.rows[p].dueAt <= w.rows[q].dueAt
  }

  function LockRow(r: Row, now: int, worker: Worker, secs: nat): Row {
    r.(state := LOCKED, lockOwner := Some(worker), lockExpireAt := Some(now + secs), updatedAt := now)
  }

  predicate Completable(w: World, id: TaskId, worker: Worker) {
    && id in w.rows && w.rows[id].state.LOCKED?
    && w.rows[id].lockOwner == Some(worker)
    && w.rows[id].lockExpireAt.Some? && w.rows[id].lockExpireAt.value > w.now
  }

  function CompleteRow(r: Row, now: int, vars: Variables): Row {
    r.(state := COMPLETED, variables := r.variables + vars, result := vars, updatedAt := now)
  }

  /** The lease need not be live, but the decrement must not underflow the 32-bit column. */
  predicate Failable(w: World, id: TaskId, worker: Worker) {
    && id in w.rows && w.rows[id].state.LOCKED?
    && w.rows[id].lockOwner == Some(worker)
    && w.rows[id].retries > I32_MIN
  }

  function FailRow(r: Row, now: int, error: string, retryAfter: Option<nat>): Row {
    var delay := if retryAfter.Some? then retryAfter.value else 0;
    var left := r.retries - 1;
    r.(retries := left, state := if left > 0 then READY else FAILED, errorMessage := Some(error),
       lockOwner := None, lockExpireAt := None, dueAt := if left > 0 then now + delay else r.dueAt, updatedAt := now)
  }

  predicate Expired(w: World, id: TaskId) {
    && id in w.rows && w.rows[id].state.LOCKED?
    && w.rows[id].lockExpireAt.Some? && w.rows[id].lockExpireAt.value < w.now
  }

  function ReclaimRow(r: Row, now: int): Row {
    r.(state := READY, lockOwner := None, lockExpireAt := None, updatedAt := now)
  }

  function CancelRow(r: Row, now: int): Row {
    r.(state := FAILED, errorMessage := Some("instance cancelled"), lockOwner := None, lockExpireAt := None,
      updatedAt := now)
  }

  // ---------- Steps ----------

  datatype Step =
    | Tick(seconds: nat)
    | Create(id: TaskId, token: TokenId, inst: InstanceId, taskType: string, retries: int, timeout: nat,
      vars: Variables)
    | LockReady(worker: Worker, secs: nat, filter: Filter, limit: nat, held: set<TaskId>, picked: set<TaskId>)
    | Complete(id: TaskId, worker: Worker, vars: Variables)
    | Fail(id: TaskId, worker: Worker, error: string, retryAfter: Option<nat>)
    | Reclaim
    | CancelFor(inst: InstanceId)
    | MarkAdvanced(id: TaskId)
    | DeleteInstance(inst: InstanceId)

  ghost predicate Enabled(w: World, s: Step) {
    match s
    case Create(id, _, _, _, _, _, _) => id !in w.used
    case LockReady(_, _, f, limit, held, picked) => IsBatch(w, f, limit, held, picked)
    case _ => true
  }

  function Apply(w: World, s: Step): World {
    match s
    case Tick(seconds) => w.(now := w.now + seconds)
    case Create(id, token, inst, taskType, retries, timeout, vars) =>
      if Creatable(taskType, timeout)
      then w.(rows := w.rows[id := NewRow(w.now, token, inst, taskType, retries, vars)], used := w.used + {id})
      else w
    case LockReady(worker, secs, _, _, _, picked) =>
      w.(rows := map id | id in w.rows :: if id in picked then LockRow(w.rows[id], w.now, worker, secs) else w.rows[id])
    case Complete(id, worker, vars) =>
      if Completable(w, id, worker) then w.(rows := w.rows[id := CompleteRow(w.rows[id], w.now, vars)]) else w
    case Fail(id, worker, error, retryAfter) =>
      if Failable(w, id, worker) then w.(rows := w.rows[id := FailRow(w.rows[id], w.now, error, retryAfter)]) else w
    case Reclaim =>
      w.(rows := map id | id in w.rows :: if Expired(w, id) then ReclaimRow(w.rows[id], w.now) else w.rows[id])
    case CancelFor(inst) =>
      w.(rows := map id | id in w.rows ::
           if w.rows[id].instanceId == inst && Open(w.rows[id]) then CancelRow(w.rows[id], w.now) else w.rows[id])
    case MarkAdvanced(id) =>
      if id in w.rows then w.(rows := w.rows[id := w.rows[id].(advancedAt := Some(w.now))]) else w
    case DeleteInstance(inst) =>
      w.(rows := map id | id in w.rows && w.rows[id].instanceId != inst :: w.rows[id])
  }

  // ---------- Invariant ----------

  /** READY and FAILED rows carry no lease, LOCKED and COMPLETED rows carry a whole one. */
  predicate LeaseOk(r: Row) {
    if r.state.LOCKED? || r.state.COMPLETED? then r.lockOwner.Some? && r.lockExpireAt.Some?
    else r.lockOwner.None? && r.lockExpireAt.None?
  }

  /** No row is due before its creation plus its delay, and none was picked up before it was due. */
  predicate DueOk(r: Row, now: int) {
    && r.createdAt + Delay(r.taskType) <= r.dueAt
    && r.updatedAt <= now
    && (r.state.LOCKED? || r.state.COMPLETED? ==> r.dueAt <= r.updatedAt)
  }

  predicate RowOk(r: Row, now: int) {
    LeaseOk(r) && DueOk(r, now)
  }

  ghost predicate Inv(w: World) {
    forall id :: id in w.rows ==> id in w.used && RowOk(w.rows[id], w.now)
  }

  lemma StepKeepsRowOk(w: World, s: Step, id: TaskId)
    requires Inv(w) && Enabled(w, s) && id in w.rows && id in Apply(w, s).rows
    ensures RowOk(Apply(w, s).rows[id], Apply(w, s).now)
  {
    var r := w.rows[id];
    match s
    case Create(_, _, _, _, _, _, _) => assert Apply(w, s).rows[id] == r;
    case LockReady(worker, secs, f, _, _, picked) =>
      if id in picked {
        assert id in EligibleIds(w, f);
        assert RowOk(LockRow(r, w.now, worker, secs), w.now);
      }
    case Complete(_, _, vars) => assert r.state.LOCKED? ==> RowOk(CompleteRow(r, w.now, vars), w.now);
    case Fail(_, _, error, retryAfter) => assert r.state.LOCKED? ==> RowOk(FailRow(r, w.now, error, retryAfter), w.now);
    case Reclaim => assert RowOk(ReclaimRow(r, w.now), w.now);
    case CancelFor(_) => assert RowOk(CancelRow(r, w.now), w.now);
    case _ =>
  }

  lemma StepKeepsInv(w: World, s: Step)
    requires Inv(w) && Enabled(w, s)
    ensures Inv(Apply(w, s))
  {
    var v := Apply(w, s);
    forall id | id in v.rows ensures id in v.used && RowOk(v.rows[id], v.now) {
      if id in w.rows { StepKeepsRowOk(w, s, id); }
      else { assert s.Create? && v.rows[id].createdAt == w.now; }
    }
  }

  // ---------- Runs ----------

  ghost predicate Legal(w: World, steps: seq<Step>)
    decreases |steps|
  {
    steps == [] || (Enabled(w, steps[0]) && Legal(Apply(w, steps[0]), steps[1..]))
  }

  function After(w: World, steps: seq<Step>): World
    decreases |steps|
  {
    if steps == [] then w else After(Apply(w, steps[0]), steps[1..])
  }

  lemma {:induction false} RunKeepsInv(w: World, steps: seq<Step>)
    requires Inv(w) && Legal(w, steps)
    ensures Inv(After(w, steps))
    decreases |steps|
  {
    if steps != [] {
      StepKeepsInv(w, steps[0]);
      RunKeepsInv(Apply(w, steps[0]), steps[1..]);
    }
  }

  /** How a row may change in one step or along a run: its identity stays, its due date never moves back,
      and once it is COMPLETED or FAILED nothing but the advanced mark ever changes. */
  predicate Evolves(r: Row, r': Row) {
    && r'.createdAt == r.createdAt && r'.taskType == r.taskType && r'.dueAt >= r.dueAt
    && r'.tokenId == r.tokenId && r'.instanceId == r.instanceId
    && (!Open(r) ==> r' == r.(advancedAt := r'.advancedAt))
    && (r.advancedAt.Some? ==> r'.advancedAt.Some?)
  }

  lemma RowEvolves(w: World, s: Step, id: TaskId)
    requires Enabled(w, s) && id in w.rows && id in Apply(w, s).rows && (s.Create? ==> s.id != id)
    requires w.rows[id].state.LOCKED? ==> w.rows[id].dueAt <= w.now
    ensures Evolves(w.rows[id], Apply(w, s).rows[id])
  {
    var r := w.rows[id];
    match s
    case LockReady(worker, secs, f, _, _, picked) =>
      if id in picked {
        assert id in EligibleIds(w, f);
        assert Evolves(r, LockRow(r, w.now, worker, secs));
      }
    case Complete(_, _, vars) => assert Open(r) ==> Evolves(r, CompleteRow(r, w.now, vars));
    case Fail(_, worker, error, retryAfter) =>
      assert Failable(w, id, worker) ==> Evolves(r, FailRow(r, w.now, error, retryAfter));
    case Reclaim => assert Open(r) ==> Evolves(r, ReclaimRow(r, w.now));
    case CancelFor(_) => assert Open(r) ==> Evolves(r, CancelRow(r, w.now));
    case _ =>
  }

  lemma StepOnRow(w: World, s: Step, id: TaskId)
    requires Inv(w) && Enabled(w, s) && id in w.rows && id in Apply(w, s).rows
    ensures Evolves(w.rows[id], Apply(w, s).rows[id])
  {
    assert id in w.used && RowOk(w.rows[id], w.now);
    RowEvolves(w, s, id);
  }

  lemma StepKeepsUsed(w: World, s: Step)
    ensures w.used <= Apply(w, s).used && w.now <= Apply(w, s).now
    ensures Enabled(w, s) ==> forall id :: id in w.used && id !in w.rows ==> id !in Apply(w, s).rows
  {
  }

  /** A task deleted with its instance never returns. */
  lemma {:induction false} DeletedStaysDeleted(w: World, steps: seq<Step>, id: TaskId)
    requires Legal(w, steps) && id in w.used && id !in w.rows
    ensures id !in After(w, steps).rows
    decreases |steps|
  {
    if steps != [] {
      StepKeepsUsed(w, steps[0]);
      DeletedStaysDeleted(Apply(w, steps[0]), steps[1..], id);
    }
  }

  /** A row evolves along every run. */
  lemma {:induction false} RowAlongRun(w: World, steps: seq<Step>, id: TaskId)
    requires Inv(w) && Legal(w, steps) && id in w.rows && id in After(w, steps).rows
    ensures Evolves(w.rows[id], After(w, steps).rows[id])
    decreases |steps|
  {
    if steps != [] {
      var v, rest := Apply(w, steps[0]), steps[1..];
      StepKeepsInv(w, steps[0]);
      StepKeepsUsed(w, steps[0]);
      if id !in v.rows { DeletedStaysDeleted(v, rest, id); }
      StepOnRow(w, steps[0], id);
      RowAlongRun(v, rest, id);
    }
  }

  // ---------- A timer never fires early ----------

  ghost predicate Fresh(w: World) {
    w.rows == map[]
  }

  /** In every run from an empty table: a locked or completed task was due when it was taken, and a
      completed timer was completed no sooner than its creation plus its parsed duration. */
  lemma NeverEarly(w: World, steps: seq<Step>, id: TaskId)
    requires Fresh(w) && Legal(w, steps) && id in After(w, steps).rows
    ensures var r := After(w, steps).rows[id];
            && (r.state.LOCKED? || r.state.COMPLETED? ==> r.dueAt <= After(w, steps).now)
            && (r.state.COMPLETED? && ParseTimer(r.taskType).Some? && ParseTimer(r.taskType).value.Success? ==>
                  r.updatedAt >= r.createdAt + ParseTimer(r.taskType).value.value)
  {
    RunKeepsInv(w, steps);
  }

  /** From creation on, in whatever state the queue is, through any run: the completion of a task comes no
      sooner than its creation plus its delay. */
  lemma CompletedNoSooner(w: World, c: Step, steps: seq<Step>, s: Step)
    requires Inv(w) && c.Create? && Enabled(w, c) && Creatable(c.taskType, c.timeout)
    requires Legal(Apply(w, c), steps) && Completes(After(Apply(w, c), steps), s, c.id)
    ensures After(Apply(w, c), steps).now >= w.now + Delay(c.taskType)
  {
    StepKeepsInv(w, c);
    RunKeepsInv(Apply(w, c), steps);
    RowAlongRun(Apply(w, c), steps, c.id);
  }

  // ---------- Completed at most once ----------

  predicate Completes(w: World, s: Step, id: TaskId) {
    s.Complete? && s.id == id && Completable(w, id, s.worker)
  }

  function Completions(w: World, steps: seq<Step>, id: TaskId): nat
    decreases |steps|
  {
    if steps == [] then 0
    else (if Completes(w, steps[0], id) then 1 else 0) + Completions(Apply(w, steps[0]), steps[1..], id)
  }

  /** Completion succeeds at most once per task, whoever tries and however leases expire; a task that is
      closed, or deleted, is never completed again. */
  lemma {:induction false} CompletedAtMostOnce(w: World, steps: seq<Step>, id: TaskId)
    requires Inv(w) && Legal(w, steps)
    ensures Completions(w, steps, id) <= 1
    ensures id in w.rows && !Open(w.rows[id]) ==> Completions(w, steps, id) == 0
    ensures id in w.used && id !in w.rows ==> Completions(w, steps, id) == 0
    decreases |steps|
  {
    if steps != [] {
      var s, v := steps[0], Apply(w, steps[0]);
      StepKeepsInv(w, s);
      StepKeepsUsed(w, s);
      CompletedAtMostOnce(v, steps[1..], id);
      if id in w.rows && id in v.rows { StepOnRow(w, s, id); }
    }
  }

  /** A late `fail` changes nothing: once completion has succeeded, the `fail` that the poll loop issues
      after a later error leaves the whole table as it is, at any point of any continuation. */
  lemma LateFailIsHarmless(w: World, steps: seq<Step>, s: Step, f: Step)
    requires Inv(w) && s.Complete? && Completes(w, s, s.id) && Legal(Apply(w, s), steps)
    requires f.Fail? && f.id == s.id
    ensures Apply(After(Apply(w, s), steps), f) == After(Apply(w, s), steps)
  {
    var v := Apply(w, s);
    StepKeepsInv(w, s);
    if s.id in After(v, steps).rows {
      RowAlongRun(v, steps, s.id);
    }
  }

  /** What completion wrote is final: along any run the task stays COMPLETED with the worker's output as its
      result, and it is not taken for abandoned before `grace` seconds have passed. */
  lemma CompletionIsFinal(w: World, s: Step, steps: seq<Step>, grace: nat)
    requires Inv(w) && s.Complete? && Completes(w, s, s.id) && Legal(Apply(w, s), steps)
    requires s.id in After(Apply(w, s), steps).rows
    ensures var e := After(Apply(w, s), steps);
            && e.rows[s.id].state.COMPLETED? && e.rows[s.id].result == s.vars
            && e.rows[s.id].variables == w.rows[s.id].variables + s.vars
            && (e.rows[s.id].updatedAt < e.now - grace ==> e.now > w.now + grace)
  {
    StepKeepsInv(w, s);
    RowAlongRun(Apply(w, s), steps, s.id);
  }

  // ---------- Retry conservation ----------

  predicate Fails(w: World, s: Step, id: TaskId) {
    s.Fail? && s.id == id && Failable(w, id, s.worker)
  }

  function Failures(w: World, steps: seq<Step>, id: TaskId): nat
    decreases |steps|
  {
    if steps == [] then 0
    else (if Fails(w, steps[0], id) then 1 else 0) + Failures(Apply(w, steps[0]), steps[1..], id)
  }

  lemma RetriesOfStep(w: World, s: Step, id: TaskId)
    requires Inv(w) && Enabled(w, s) && id in w.rows && id in Apply(w, s).rows
    ensures Apply(w, s).rows[id].retries == w.rows[id].retries - if Fails(w, s, id) then 1 else 0
  {
  }

  /** Retries left plus effective failures is constant; locking, reclaiming and cancelling cost nothing. */
  lemma {:induction false} RetriesConserved(w: World, steps: seq<Step>, id: TaskId)
    requires Inv(w) && Legal(w, steps) && id in w.rows && id in After(w, steps).rows
    ensures After(w, steps).rows[id].retries + Failures(w, steps, id) == w.rows[id].retries
    decreases |steps|
  {
    if steps != [] {
      var v, rest := Apply(w, steps[0]), steps[1..];
      StepKeepsInv(w, steps[0]);
      StepKeepsUsed(w, steps[0]);
      if id !in v.rows { DeletedStaysDeleted(v, rest, id); }
      RetriesOfStep(w, steps[0], id);
      RetriesConserved(v, rest, id);
    }
  }

  /** A task fails at most as often as it had retries, and once if it had none. */
  lemma {:induction false} FailuresBounded(w: World, steps: seq<Step>, id: TaskId)
    requires Inv(w) && Legal(w, steps)
    ensures id in w.rows ==> Failures(w, steps, id) <= if w.rows[id].retries > 1 then w.rows[id].retries else 1
    ensures id in w.rows && !Open(w.rows[id]) ==> Failures(w, steps, id) == 0
    ensures id in w.used && id !in w.rows ==> Failures(w, steps, id) == 0
    decreases |steps|
  {
    if steps != [] {
      var s, v := steps[0], Apply(w, steps[0]);
      StepKeepsInv(w, s);
      StepKeepsUsed(w, s);
      FailuresBounded(v, steps[1..], id);
      if id in w.rows && id in v.rows { StepOnRow(w, s, id); }
    }
  }

  // ---------- Leases are exclusive ----------

  /** The step takes the task. */
  predicate Takes(s: Step, id: TaskId) {
    s.LockReady? && id in s.picked
  }

  /** The step gives the task back: an effective failure, or the reclaim of a strictly expired lease. */
  predicate Releases(w: World, s: Step, id: TaskId) {
    Fails(w, s, id) || (s.Reclaim? && Expired(w, id))
  }

  /** Some step of the run gives the task back. */
  ghost predicate ReleasedIn(w: World, steps: seq<Step>, id: TaskId)
    decreases |steps|
  {
    steps != [] && (Releases(w, steps[0], id) || ReleasedIn(Apply(w, steps[0]), steps[1..], id))
  }

  ghost predicate TakenIn(steps: seq<Step>, id: TaskId) {
    exists s :: s in steps && Takes(s, id)
  }

  /** A task that is not ready, and is not given back, is not taken. */
  lemma {:induction false} NotTakenUnlessReleased(w: World, steps: seq<Step>, id: TaskId)
    requires Inv(w) && Legal(w, steps) && id in w.used
    requires id in w.rows ==> !w.rows[id].state.READY?
    requires TakenIn(steps, id)
    ensures ReleasedIn(w, steps, id)
    decreases |steps|
  {
    var s, v, rest := steps[0], Apply(w, steps[0]), steps[1..];
    assert Takes(s, id) ==> id in EligibleIds(w, s.filter);
    if !Releases(w, s, id) {
      assert TakenIn(rest, id) by {
        var t :| t in steps && Takes(t, id);
        assert steps == [s] + rest;
      }
      StepKeepsInv(w, s);
      StepKeepsUsed(w, s);
      NotTakenUnlessReleased(v, rest, id);
    }
  }

  /** Between two batches that both return a task, it failed or its lease expired and was reclaimed. */
  lemma SecondLockNeedsRelease(w: World, s: Step, steps: seq<Step>, id: TaskId)
    requires Inv(w) && Enabled(w, s) && Takes(s, id)
    requires Legal(Apply(w, s), steps) && TakenIn(steps, id)
    ensures ReleasedIn(Apply(w, s), steps, id)
  {
    StepKeepsInv(w, s);
    assert id in EligibleIds(w, s.filter);
    NotTakenUnlessReleased(Apply(w, s), steps, id);
  }

  /** A failed task waits out its delay: no batch at any later point returns it sooner. */
  lemma RetryWaits(w: World, s: Step, steps: seq<Step>, t: Step)
    requires Inv(w) && s.Fail? && Fails(w, s, s.id) && Legal(Apply(w, s), steps)
    requires Enabled(After(Apply(w, s), steps), t) && Takes(t, s.id)
    ensures After(Apply(w, s), steps).now >= w.now + if s.retryAfter.Some? then s.retryAfter.value else 0
  {
    var v := Apply(w, s);
    var e := After(v, steps);
    StepKeepsInv(w, s);
    assert s.id in EligibleIds(e, t.filter);
    RowAlongRun(v, steps, s.id);
  }

  // ---------- A live lease is good for a completion ----------

  /** Steps that may end the lease of the worker on the task before it expires. */
  predicate Touches(s: Step, id: TaskId, worker: Worker, inst: InstanceId) {
    || ((s.Complete? || s.Fail?) && s.id == id && s.worker == worker)
    || ((s.CancelFor? || s.DeleteInstance?) && s.inst == inst)
  }

  ghost predicate Undisturbed(steps: seq<Step>, id: TaskId, worker: Worker, inst: InstanceId) {
    forall s :: s in steps ==> !Touches(s, id, worker, inst)
  }

  predicate Leased(w: World, id: TaskId, worker: Worker, until: int, inst: InstanceId) {
    && id in w.used && id in w.rows && w.rows[id].state.LOCKED? && w.rows[id].instanceId == inst
    && w.rows[id].lockOwner == Some(worker) && w.rows[id].lockExpireAt == Some(until)
  }

  lemma {:induction false} ClockRises(w: World, steps: seq<Step>)
    requires Legal(w, steps)
    ensures w.now <= After(w, steps).now
    decreases |steps|
  {
    if steps != [] {
      StepKeepsUsed(w, steps[0]);
      ClockRises(Apply(w, steps[0]), steps[1..]);
    }
  }

  lemma StepKeepsLease(w: World, s: Step, id: TaskId, worker: Worker, until: int, inst: InstanceId)
    requires Enabled(w, s) && Leased(w, id, worker, until, inst) && w.now < until
    requires !Touches(s, id, worker, inst)
    ensures Leased(Apply(w, s), id, worker, until, inst)
  {
    TakenWasReady(w, s, id);
  }

  lemma TakenWasReady(w: World, s: Step, id: TaskId)
    requires Enabled(w, s)
    ensures Takes(s, id) ==> id in w.rows && w.rows[id].state.READY?
  {
    assert Takes(s, id) ==> id in EligibleIds(w, s.filter);
  }

  lemma LockGivesLease(w: World, s: Step, id: TaskId)
    requires Enabled(w, s) && Takes(s, id) && w.rows.Keys <= w.used
    ensures id in w.rows && Leased(Apply(w, s), id, s.worker, w.now + s.secs, w.rows[id].instanceId)
  {
    TakenWasReady(w, s, id);
  }

  lemma {:induction false} LeaseHolds(w: World, steps: seq<Step>, id: TaskId, worker: Worker, until: int,
                                      inst: InstanceId)
    requires Legal(w, steps) && Leased(w, id, worker, until, inst) && After(w, steps).now < until
    requires Undisturbed(steps, id, worker, inst)
    ensures Leased(After(w, steps), id, worker, until, inst) && Completable(After(w, steps), id, worker)
    decreases |steps|
  {
    if steps != [] {
      ClockRises(w, steps);
      assert steps[0] in steps;
      StepKeepsLease(w, steps[0], id, worker, until, inst);
      LeaseHolds(Apply(w, steps[0]), steps[1..], id, worker, until, inst);
    }
  }

  /** Whatever others do, a worker that took a task and has not given it up can complete it until its lease
      ends, unless the instance is cancelled or deleted. */
  lemma LeaseIsGood(w: World, s: Step, steps: seq<Step>, id: TaskId)
    requires w.rows.Keys <= w.used && Enabled(w, s) && Takes(s, id) && Legal(Apply(w, s), steps)
    requires id in w.rows ==> Undisturbed(steps, id, s.worker, w.rows[id].instanceId)
    requires After(Apply(w, s), steps).now < w.now + s.secs
    ensures Completable(After(Apply(w, s), steps), id, s.worker)
  {
    LockGivesLease(w, s, id);
    LeaseHolds(Apply(w, s), steps, id, s.worker, w.now + s.secs, w.rows[id].instanceId);
  }

  // ---------- Batches drain a backlog ----------

  /** After a batch, what is still eligible is what was eligible and not picked. */
  lemma BatchLeavesRest(w: World, s: Step)
    requires s.LockReady? && Enabled(w, s)
    ensures EligibleIds(Apply(w, s), s.filter) == EligibleIds(w, s.filter) - s.picked
    ensures forall id :: id in w.rows && id !in s.picked ==> Apply(w, s).rows[id] == w.rows[id]
  {
    forall id ensures id in EligibleIds(Apply(w, s), s.filter) <==> id in EligibleIds(w, s.filter) - s.picked {
      if id in s.picked { assert id in EligibleIds(w, s.filter); }
    }
  }

  lemma SubsetSize(a: set<TaskId>, b: set<TaskId>)
    requires a <= b
    ensures |b - a| == |b| - |a|
  {
    assert b == a + (b - a);
  }

  /** Consecutive batches with the same filter and limit, no row being held by others. */
  ghost predicate Batches(steps: seq<Step>, f: Filter, limit: nat) {
    forall s :: s in steps ==> s.LockReady? && s.filter == f && s.limit == limit && s.held == {}
  }

  lemma BatchCounts(w: World, s: Step)
    requires s.LockReady? && s.held == {} && Enabled(w, s)
    ensures var n := |EligibleIds(w, s.filter)|;
            |EligibleIds(Apply(w, s), s.filter)| == if n <= s.limit then 0 else n - s.limit
  {
    BatchLeavesRest(w, s);
    assert EligibleIds(w, s.filter) - {} == EligibleIds(w, s.filter);
    SubsetSize(s.picked, EligibleIds(w, s.filter));
  }

  lemma OneMoreTimes(k: nat, limit: nat)
    ensures (k + 1) * limit == k * limit + limit
  {
  }

  /** k batches leave n - k * limit of n eligible tasks, and none once k * limit reaches n: a fixed due set
      of n is drained by ceil(n / limit) calls. */
  lemma {:induction false} BatchesDrain(w: World, steps: seq<Step>, f: Filter, limit: nat)
    requires Legal(w, steps) && Batches(steps, f, limit)
    ensures var n, k := |EligibleIds(w, f)|, |steps|;
            |EligibleIds(After(w, steps), f)| == if n <= k * limit then 0 else n - k * limit
    decreases |steps|
  {
    if steps != [] {
      var s := steps[0];
      assert s in steps;
      BatchCounts(w, s);
      BatchesDrain(Apply(w, s), steps[1..], f, limit);
      OneMoreTimes(|steps[1..]|, limit);
    }
  }
}
