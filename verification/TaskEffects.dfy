/**
 What the statements of the task queue mean, told without the step function: when a new task can be taken, how
 long a lease lasts, what a failure and a reclaim give back, when a completed task looks abandoned, and that no
 statement touches any other row.
 */
module TaskEffects {
  import opened Wrappers
  import opened ProcessModel
  import opened TimerTypes
  import opened TaskTable
  import TaskStore

  // ---------- Other rows are left alone ----------

  /** The statement is meant for the row. */
  predicate MeantFor(w: World, s: Step, id: TaskId) {
    match s
    case Tick(_) => false
    case Create(i, _, _, _, _, _, _) => i == id
    case LockReady(_, _, _, _, _, picked) => id in picked
    case Complete(i, worker, _) => i == id && Completable(w, id, worker)
    case Fail(i, worker, _, _) => i == id && Failable(w, id, worker)
    case Reclaim => Expired(w, id)
    case CancelFor(inst) => id in w.rows && w.rows[id].instanceId == inst && Open(w.rows[id])
    case MarkAdvanced(i) => i == id
    case DeleteInstance(inst) => id in w.rows && w.rows[id].instanceId == inst
  }

  /** Every other row stays as it is; and time passes by itself only. */
  lemma OthersUntouched(w: World, s: Step, id: TaskId)
    requires !MeantFor(w, s, id)
    ensures id in Apply(w, s).rows <==> id in w.rows
    ensures id in w.rows ==> Apply(w, s).rows[id] == w.rows[id]
    ensures Apply(w, s).now == w.now + if s.Tick? then s.seconds else 0
  {
  }

  /** A cancel and a deletion leave the tasks of every other instance alone. */
  lemma OtherInstancesUntouched(w: World, s: Step, id: TaskId)
    requires (s.CancelFor? || s.DeleteInstance?) && id in w.rows && w.rows[id].instanceId != s.inst
    ensures id in Apply(w, s).rows && Apply(w, s).rows[id] == w.rows[id]
  {
  }

  /** A cancel closes what was open, with a message, and leaves closed tasks as they are; a deletion removes all. */
  lemma OwnInstanceEnds(w: World, inst: InstanceId, id: TaskId)
    requires id in w.rows && w.rows[id].instanceId == inst
    ensures id !in Apply(w, DeleteInstance(inst)).rows
    ensures id in Apply(w, CancelFor(inst)).rows
    ensures var r, r' := w.rows[id], Apply(w, CancelFor(inst)).rows[id];
            if r.state.READY? || r.state.LOCKED?
            then r'.state.FAILED? && r'.errorMessage == Some("instance cancelled") && SameTask(r, r')
            else r' == r
  {
  }

  /** The two rows differ in no more than state, lease, message, due date and times. */
  predicate SameTask(r: Row, r': Row) {
    && r'.tokenId == r.tokenId && r'.instanceId == r.instanceId && r'.taskType == r.taskType
    && r'.variables == r.variables && r'.result == r.result
    && r'.advancedAt == r.advancedAt && r'.createdAt == r.createdAt
  }

  /** The same, and it is due as before, with as many retries. */
  predicate SameDemand(r: Row, r': Row) {
    SameTask(r, r') && r'.dueAt == r.dueAt && r'.retries == r.retries && r'.errorMessage == r.errorMessage
  }

  // ---------- Creation ----------

  /** Seconds asked for by the type: "timer:" and a duration, or none. */
  function Wait(taskType: string): nat
    requires "timer:" <= taskType ==> ParseDuration(taskType[6..]).Some?
  {
    if "timer:" <= taskType then ParseDuration(taskType[6..]).value else 0
  }

  lemma WaitIsDelay(taskType: string)
    ensures Malformed(taskType) <==> "timer:" <= taskType && ParseDuration(taskType[6..]) == None
    ensures !Malformed(taskType) ==> Delay(taskType) == Wait(taskType)
  {
  }

  /** What can be created: no malformed timer, no timeout past 63 bits. */
  lemma CreatableExactly(taskType: string, timeout: nat)
    ensures Creatable(taskType, timeout) <==>
            && timeout <= 9223372036854775807
            && ("timer:" <= taskType ==> ParseDuration(taskType[6..]).Some?)
  {
    WaitIsDelay(taskType);
  }

  /** A new task carries what it was created with, and can be taken exactly once its type's delay is over. */
  lemma CreatedIsDue(w: World, c: Step, wait: nat, f: Filter)
    requires c.Create? && Creatable(c.taskType, c.timeout)
    ensures var v := Apply(Apply(w, c), Tick(wait));
            && c.id in v.rows && c.id in v.used
            && (c.id in EligibleIds(v, f) <==> Admits(f, c.taskType) && wait >= Wait(c.taskType))
            && v.rows[c.id].tokenId == c.token && v.rows[c.id].instanceId == c.inst
            && v.rows[c.id].taskType == c.taskType && v.rows[c.id].retries == c.retries
            && v.rows[c.id].variables == c.vars && v.rows[c.id].result == map[]
            && v.rows[c.id].advancedAt == None && v.rows[c.id].errorMessage == None
            && v.rows[c.id].createdAt == w.now
  {
    WaitIsDelay(c.taskType);
    CreatableExactly(c.taskType, c.timeout);
  }

  // ---------- Filters ----------

  /** The timer service's filter admits exactly the timers; a list of types exactly its members. */
  lemma FiltersAdmit(taskType: string, types: seq<string>)
    ensures Admits(TaskStore.TIMERS, taskType) <==> ParseTimer(taskType).Some?
    ensures Admits(Filter(Some(types), None), taskType) <==> taskType in types
    ensures Admits(Filter(None, None), taskType)
  {
    TimersHavePrefix(taskType);
  }

  // ---------- Batches ----------

  /** A batch takes READY tasks that are due, admitted and held by nobody, as many as it may, and leaves out none that
      was due before one it takes. */
  lemma BatchTakes(w: World, s: Step, p: TaskId, q: TaskId)
    requires Enabled(w, s) && Takes(s, p)
    ensures p in w.rows && w.rows[p].state == READY && w.rows[p].dueAt <= w.now
    ensures Admits(s.filter, w.rows[p].taskType) && p !in s.held && |s.picked| <= s.limit
    ensures q in w.rows && w.rows[q].state == READY && w.rows[q].dueAt <= w.now
            && Admits(s.filter, w.rows[q].taskType) && q !in s.held && q !in s.picked ==>
              w.rows[q].dueAt >= w.rows[p].dueAt && |s.picked| == s.limit
  {
    assert p in EligibleIds(w, s.filter);
    var free := EligibleIds(w, s.filter) - s.held;
    SubsetSize(s.picked, free);
    assert q in free - s.picked ==> |free - s.picked| > 0;
  }

  // ---------- Leases ----------

  /** A taken task is its worker's to complete for exactly the seconds of the lease; strictly after them it can be
      reclaimed; in between neither. Nothing else about it changes. */
  lemma LeaseLasts(w: World, s: Step, id: TaskId, worker: Worker, wait: nat)
    requires Enabled(w, s) && Takes(s, id)
    ensures var v := Apply(Apply(w, s), Tick(wait));
            && (Completable(v, id, worker) <==> worker == s.worker && wait < s.secs)
            && (Expired(v, id) <==> wait > s.secs)
            && id in w.rows && id in v.rows && SameDemand(w.rows[id], v.rows[id])
  {
    TakenWasReady(w, s, id);
  }

  /** The lease ended strictly before now. */
  predicate LeaseOver(w: World, id: TaskId) {
    && id in w.rows && w.rows[id].state == LOCKED
    && w.rows[id].lockExpireAt.Some? && w.rows[id].lockExpireAt.value < w.now
  }

  /** Reclaiming makes a task whose lease is over READY again, as it was, and touches no other. */
  lemma ReclaimFrees(w: World, id: TaskId)
    requires id in w.rows
    ensures id in Apply(w, Reclaim).rows
    ensures var r, r' := w.rows[id], Apply(w, Reclaim).rows[id];
            if LeaseOver(w, id)
            then r'.state == READY && r'.lockOwner == None && r'.lockExpireAt == None && SameDemand(r, r')
            else r' == r
  {
  }

  lemma LockedIsDue(w: World, id: TaskId)
    requires Inv(w) && id in w.rows && w.rows[id].state.LOCKED?
    ensures w.rows[id].dueAt <= w.now
  {
    assert RowOk(w.rows[id], w.now);
  }

  lemma DueIsEligible(w: World, id: TaskId, f: Filter)
    requires LeaseOver(w, id) && w.rows[id].dueAt <= w.now && Admits(f, w.rows[id].taskType)
    ensures id in EligibleIds(Apply(w, Reclaim), f)
  {
    ReclaimFrees(w, id);
  }

  /** So it can be taken again at once. */
  lemma ReclaimedIsEligible(w: World, id: TaskId, f: Filter)
    requires Inv(w) && LeaseOver(w, id) && Admits(f, w.rows[id].taskType)
    ensures id in EligibleIds(Apply(w, Reclaim), f)
  {
    LockedIsDue(w, id);
    DueIsEligible(w, id, f);
  }

  // ---------- Failures ----------

  /** The worker holds the task, its lease live or over, and the retries do not underflow. */
  predicate Holds(w: World, id: TaskId, worker: Worker) {
    && id in w.rows && w.rows[id].state == LOCKED && w.rows[id].lockOwner == Some(worker)
    && w.rows[id].retries > -2147483648
  }

  /** A failed task with retries left can be taken again exactly once its delay is over; without, it is FAILED. */
  lemma FailedComesBack(w: World, id: TaskId, worker: Worker, e: string, d: Option<nat>, wait: nat, f: Filter)
    requires Holds(w, id, worker)
    ensures var v := Apply(Apply(w, Fail(id, worker, e, d)), Tick(wait));
            && id in v.rows && SameTask(w.rows[id], v.rows[id])
            && v.rows[id].retries == w.rows[id].retries - 1 && v.rows[id].errorMessage == Some(e)
            && v.rows[id].lockOwner == None && v.rows[id].lockExpireAt == None
            && (w.rows[id].retries <= 1 ==> v.rows[id].state == FAILED)
            && (w.rows[id].retries >= 2 ==>
                  (id in EligibleIds(v, f) <==>
                     Admits(f, w.rows[id].taskType) && wait >= if d.Some? then d.value else 0))
  {
  }

  /** A fail by anybody else changes nothing. */
  lemma FailByOthersIsVoid(w: World, id: TaskId, worker: Worker, e: string, d: Option<nat>)
    requires !Holds(w, id, worker)
    ensures Apply(w, Fail(id, worker, e, d)) == w
  {
  }

  /** No cancel of the instance in the run. */
  ghost predicate NotCancelled(steps: seq<Step>, inst: InstanceId) {
    forall s :: s in steps ==> !(s.CancelFor? && s.inst == inst)
  }

  lemma StateOfStep(w: World, s: Step, id: TaskId)
    requires Inv(w) && Enabled(w, s) && id in w.rows && Open(w.rows[id]) && id in Apply(w, s).rows
    requires !(s.CancelFor? && s.inst == w.rows[id].instanceId)
    ensures Fails(w, s, id) ==> (Apply(w, s).rows[id].state.FAILED? <==> w.rows[id].retries <= 1)
    ensures !Fails(w, s, id) ==> !Apply(w, s).rows[id].state.FAILED?
  {
    if !MeantFor(w, s, id) { OthersUntouched(w, s, id); }
  }

  /** An open task that ends FAILED, its instance not being cancelled, has failed exactly as often as it had
      retries, and once if it had none. */
  lemma {:induction false} FailedExactly(w: World, steps: seq<Step>, id: TaskId)
    requires Inv(w) && Legal(w, steps) && id in w.rows && Open(w.rows[id])
    requires NotCancelled(steps, w.rows[id].instanceId)
    requires id in After(w, steps).rows && After(w, steps).rows[id].state.FAILED?
    ensures Failures(w, steps, id) == if w.rows[id].retries > 1 then w.rows[id].retries else 1
    decreases |steps|
  {
    var s, v, rest := steps[0], Apply(w, steps[0]), steps[1..];
    assert s in steps;
    StepKeepsInv(w, s);
    StepKeepsUsed(w, s);
    if id !in v.rows { DeletedStaysDeleted(v, rest, id); }
    StepOnRow(w, s, id);
    RetriesOfStep(w, s, id);
    StateOfStep(w, s, id);
    if Open(v.rows[id]) {
      FailedExactly(v, rest, id);
    } else {
      RowAlongRun(v, rest, id);
      FailuresBounded(v, rest, id);
    }
  }

  // ---------- Completion ----------

  /** The worker's output laid over the variables: its values win, every other variable stays. */
  predicate Overlaid(base: Variables, over: Variables, all: Variables) {
    && all.Keys == base.Keys + over.Keys
    && forall k :: k in all ==> all[k] == if k in over then over[k] else base[k]
  }

  /** What a row's variables are, given those it was created with: the same until it is completed, and then those
      with the result laid over. */
  predicate Carries(r: Row, vars: Variables) {
    if r.state.COMPLETED? then Overlaid(vars, r.result, r.variables) else r.variables == vars && r.result == map[]
  }

  lemma StepCarries(w: World, s: Step, id: TaskId, vars: Variables)
    requires Inv(w) && Enabled(w, s) && id in w.rows && id in Apply(w, s).rows && Carries(w.rows[id], vars)
    ensures Carries(Apply(w, s).rows[id], vars)
  {
    assert id in w.used;
    if !MeantFor(w, s, id) {
      OthersUntouched(w, s, id);
    } else if s.LockReady? {
      TakenWasReady(w, s, id);
    }
  }

  lemma {:induction false} CarriesAlongRun(w: World, steps: seq<Step>, id: TaskId, vars: Variables)
    requires Inv(w) && Legal(w, steps) && id in w.rows && Carries(w.rows[id], vars) && id in After(w, steps).rows
    ensures Carries(After(w, steps).rows[id], vars)
    decreases |steps|
  {
    if steps != [] {
      var v, rest := Apply(w, steps[0]), steps[1..];
      StepKeepsInv(w, steps[0]);
      StepKeepsUsed(w, steps[0]);
      if id !in v.rows { DeletedStaysDeleted(v, rest, id); }
      StepCarries(w, steps[0], id, vars);
      CarriesAlongRun(v, rest, id, vars);
    }
  }

  /** From its creation on, through any run, a task's variables are those it was created with, and after completion
      those with the worker's output laid over. */
  lemma VariablesFromCreation(w: World, c: Step, steps: seq<Step>)
    requires Inv(w) && c.Create? && Enabled(w, c) && Creatable(c.taskType, c.timeout)
    requires Legal(Apply(w, c), steps) && c.id in After(Apply(w, c), steps).rows
    ensures Carries(After(Apply(w, c), steps).rows[c.id], c.vars)
  {
    StepKeepsInv(w, c);
    CarriesAlongRun(Apply(w, c), steps, c.id, c.vars);
  }

  /** A completed task looks abandoned from the sixteenth second on, unless it is marked. The rest of its row is as
      it was, the lease included. */
  lemma AbandonedExactly(w: World, s: Step, wait: nat)
    requires s.Complete? && Completes(w, s, s.id)
    ensures var v, r := Apply(Apply(w, s), Tick(wait)), w.rows[s.id];
            && (TaskStore.Stale(v.rows, v.now - TaskStore.GRACE, s.id) <==> wait > 15 && r.advancedAt == None)
            && v.rows[s.id] == r.(state := COMPLETED, variables := v.rows[s.id].variables,
                                  result := s.vars, updatedAt := w.now)
  {
  }

  /** A mark always takes, on any row, and ends the abandonment for good. */
  lemma MarkTakes(w: World, id: TaskId, cutoff: int)
    requires id in w.rows
    ensures var v := Apply(w, MarkAdvanced(id));
            && id in v.rows && v.rows[id] == w.rows[id].(advancedAt := Some(w.now))
            && !TaskStore.Stale(v.rows, cutoff, id)
  {
  }
}
