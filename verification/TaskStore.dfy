/**
 The external task store (pg_external_task_store.rs): a table updated in place. Every method is proved
 to perform the corresponding step of `TaskTable`, whose properties then hold of every use of the store.
 */
module TaskStore {
  import opened Wrappers
  import opened ProcessModel
  import opened TimerTypes
  import opened TaskTable

  datatype TaskError =
    | BadTaskType(taskType: string)
    | BadTimeout
    | NotCompletable(id: TaskId)
    | RetriesUnderflow(id: TaskId)

  /** How long a completed task may stay unadvanced before the reconciler looks at it. */
  const GRACE: int := 15

  /** The prefix of the pattern that selects timers. */
  const TIMERS: Filter := Filter(None, Some(TIMER_PREFIX))

  /** COMPLETED tasks whose token transition is not recorded, untouched since before the cutoff. */
  predicate Stale(rows: map<TaskId, Row>, cutoff: int, id: TaskId) {
    id in rows && rows[id].state.COMPLETED? && rows[id].advancedAt.None? && rows[id].updatedAt < cutoff
  }

  function Backlog(rows: map<TaskId, Row>, cutoff: int): set<TaskId> {
    set id | id in rows && Stale(rows, cutoff, id)
  }

  /** When each row was last updated. */
  function Ages(rows: map<TaskId, Row>): map<TaskId, int> {
    map id | id in rows :: rows[id].updatedAt
  }

  function Ids(s: seq<TaskId>): set<TaskId> {
    set id | id in s
  }

  // ---------- ORDER BY ... LIMIT ----------

  /** The picked ids come without repetition, in ascending key order, before all that is left. */
  ghost predicate InOrder(ids: set<TaskId>, key: map<TaskId, int>, picked: seq<TaskId>)
    requires ids <= key.Keys
  {
    && (forall i :: 0 <= i < |picked| ==> picked[i] in ids)
    && (forall i, j :: 0 <= i < j < |picked| ==> picked[i] != picked[j] && key[picked[i]] <= key[picked[j]])
    && (forall i, q :: 0 <= i < |picked| && q in ids - Ids(picked) ==> key[picked[i]] <= key[q])
  }

  /** The first `limit` ids in ascending key order, ties in any order. */
  ghost predicate OldestFirst(ids: set<TaskId>, key: map<TaskId, int>, limit: nat, picked: seq<TaskId>)
    requires ids <= key.Keys
  {
    InOrder(ids, key, picked) && |picked| == (if |ids| < limit then |ids| else limit)
  }

  method Earliest(ids: set<TaskId>, key: map<TaskId, int>) returns (m: TaskId)
    requires ids != {} && ids <= key.Keys
    ensures m in ids && forall q :: q in ids ==> key[m] <= key[q]
  {
    m :| m in ids;
    var rest := ids - {m};
    while rest != {}
      invariant rest <= ids && m in ids
      invariant forall q :: q in ids && q !in rest ==> key[m] <= key[q]
    {
      var q :| q in rest;
      if key[q] < key[m] { m := q; }
      rest := rest - {q};
    }
  }

  lemma PickNext(ids: set<TaskId>, key: map<TaskId, int>, picked: seq<TaskId>, m: TaskId)
    requires ids <= key.Keys && InOrder(ids, key, picked)
    requires m in ids - Ids(picked) && forall q :: q in ids - Ids(picked) ==> key[m] <= key[q]
    ensures InOrder(ids, key, picked + [m]) && Ids(picked + [m]) == Ids(picked) + {m}
  {
    var now := picked + [m];
    assert Ids(now) == Ids(picked) + {m};
    forall i, j | 0 <= i < j < |now| ensures now[i] != now[j] && key[now[i]] <= key[now[j]] {
      if j == |picked| { assert now[i] == picked[i] && picked[i] in Ids(picked); }
    }
  }

  method OrderByLimit(ids: set<TaskId>, key: map<TaskId, int>, limit: nat) returns (picked: seq<TaskId>)
    requires ids <= key.Keys
    ensures OldestFirst(ids, key, limit, picked)
  {
    picked := [];
    var rest := ids;
    while rest != {} && |picked| < limit
      invariant InOrder(ids, key, picked)
      invariant rest == ids - Ids(picked)
      invariant |rest| + |picked| == |ids| && |picked| <= limit
      decreases rest
    {
      var m := Earliest(rest, key);
      PickNext(ids, key, picked, m);
      picked := picked + [m];
      rest := rest - {m};
    }
  }

  lemma {:induction false} DistinctCount(s: seq<TaskId>)
    requires forall i, j :: 0 <= i < j < |s| ==> s[i] != s[j]
    ensures |Ids(s)| == |s|
  {
    if s != [] {
      DistinctCount(s[1..]);
      assert Ids(s) == {s[0]} + Ids(s[1..]) by {
        assert s == [s[0]] + s[1..];
      }
    }
  }

  /** The first rows by due date, among those nobody holds, are a batch. */
  lemma OldestIsBatch(w: World, f: Filter, limit: nat, held: set<TaskId>, key: map<TaskId, int>, picked: seq<TaskId>)
    requires key.Keys == w.rows.Keys && forall id :: id in w.rows ==> key[id] == w.rows[id].dueAt
    requires OldestFirst(EligibleIds(w, f) - held, key, limit, picked)
    ensures IsBatch(w, f, limit, held, Ids(picked))
  {
    DistinctCount(picked);
    forall p, q | p in Ids(picked) && q in EligibleIds(w, f) - held - Ids(picked)
      ensures w.rows[p].dueAt <= w.rows[q].dueAt
    {
      var i :| 0 <= i < |picked| && picked[i] == p;
    }
  }

  /** The delay of a new row, or the refusal of its type. */
  method DelayOf(taskType: string) returns (r: Result<nat, TaskError>)
    ensures r == if Malformed(taskType) then Failure(BadTaskType(taskType)) else Success(Delay(taskType))
  {
    match ParseTimer(taskType) {
      case Some(Success(d)) => r := Success(d);
      case Some(Failure(e)) => r := Failure(BadTaskType(e));
      case None => r := Success(0);
    }
  }

  // ---------- What an update changes ----------

  /** The rows that differ. */
  function Changed(rows: map<TaskId, Row>, rows': map<TaskId, Row>): set<TaskId> {
    set id | id in rows && id in rows' && rows'[id] != rows[id]
  }

  function OpenOf(rows: map<TaskId, Row>, inst: InstanceId): set<TaskId> {
    set id | id in rows && rows[id].instanceId == inst && Open(rows[id])
  }

  lemma CancelChanges(w: World, inst: InstanceId)
    ensures var v := Apply(w, CancelFor(inst));
            && v.rows.Keys == w.rows.Keys
            && (forall id :: id in v.rows && w.rows[id].instanceId != inst ==> v.rows[id] == w.rows[id])
            && (forall id :: id in v.rows && w.rows[id].instanceId == inst ==> !Open(v.rows[id]))
            && Changed(w.rows, v.rows) == OpenOf(w.rows, inst)
  {
    var v := Apply(w, CancelFor(inst));
    forall id | id in w.rows ensures v.rows[id] != w.rows[id] <==> id in OpenOf(w.rows, inst) {}
  }

  lemma ReclaimChanges(w: World)
    ensures var v := Apply(w, Reclaim);
            && v.rows.Keys == w.rows.Keys
            && (forall id :: id in v.rows && v.rows[id] != w.rows[id] ==> v.rows[id].state.READY?)
            && Changed(w.rows, v.rows) == set id | id in w.rows && Expired(w, id)
  {
    var v := Apply(w, Reclaim);
    forall id | id in w.rows ensures v.rows[id] != w.rows[id] <==> Expired(w, id) {}
  }

  // ---------- The store ----------

  class Store {
    var now: int
    var rows: map<TaskId, Row>
    var used: set<TaskId>

    constructor (now: int)
      ensures this.now == now && rows == map[] && used == {}
    {
      this.now := now;
      rows := map[];
      used := {};
    }

    ghost function View(): World
      reads this
    {
      World(now, rows, used)
    }

    /** A new READY row, due after the delay of its type. The id is a fresh random one. */
    method Create(drawn: TaskId, token: TokenId, inst: InstanceId, taskType: string, retries: int, timeout: nat,
                  vars: Variables)
      returns (r: Result<TaskId, TaskError>)
      requires drawn !in used
      modifies this
      ensures r.Failure? ==> View() == old(View())
      ensures View() == Apply(old(View()), TaskTable.Create(drawn, token, inst, taskType, retries, timeout, vars))
      ensures r.Success? <==> Creatable(taskType, timeout)
      ensures r.Success? ==> r.value == drawn
    {
      var delay := DelayOf(taskType);
      if delay.Failure? {
        return Failure(delay.error);
      }
      if timeout >= I64_LIMIT {
        return Failure(BadTimeout);
      }
      rows := rows[drawn := Row(token, inst, taskType, READY, None, None, retries, None, vars, map[], now + delay.value,
        None, now, now)];
      used := used + {drawn};
      assert rows == old(rows)[drawn := NewRow(now, token, inst, taskType, retries, vars)];
      r := Success(drawn);
    }

    /** The sub-select of the lock: READY and due rows, oldest due first, passing over held ones. */
    method PickDue(f: Filter, limit: nat, held: set<TaskId>) returns (picked: seq<TaskId>)
      ensures IsBatch(View(), f, limit, held, Ids(picked))
      ensures forall i, j :: 0 <= i < j < |picked| ==> picked[i] != picked[j]
    {
      var key := map id | id in rows :: rows[id].dueAt;
      var free := set id | id in rows && id !in held && rows[id].state.READY? && rows[id].dueAt <= now
        && Admits(f, rows[id].taskType);
      assert free == EligibleIds(View(), f) - held;
      picked := OrderByLimit(free, key, limit);
      OldestIsBatch(View(), f, limit, held, key, picked);
    }

    /** Lock READY and due tasks. `held` are rows that other sessions have locked. */
    method LockReady(worker: Worker, secs: nat, f: Filter, limit: nat, held: set<TaskId>)
      returns (picked: seq<TaskId>)
      modifies this
      ensures IsBatch(old(View()), f, limit, held, Ids(picked))
      ensures forall i, j :: 0 <= i < j < |picked| ==> picked[i] != picked[j]
      ensures View() == Apply(old(View()), TaskTable.LockReady(worker, secs, f, limit, held, Ids(picked)))
    {
      picked := PickDue(f, limit, held);
      var taken := Ids(picked);
      rows := map id | id in rows ::
        if id in taken
        then rows[id].(state := LOCKED, lockOwner := Some(worker), lockExpireAt := Some(now + secs), updatedAt := now)
        else rows[id];
    }

    method LockDueTimers(worker: Worker, limit: nat, held: set<TaskId>) returns (picked: seq<TaskId>)
      modifies this
      ensures IsBatch(old(View()), TIMERS, limit, held, Ids(picked))
      ensures forall i, j :: 0 <= i < j < |picked| ==> picked[i] != picked[j]
      ensures View() == Apply(old(View()), TaskTable.LockReady(worker, 60, TIMERS, limit, held, Ids(picked)))
    {
      picked := LockReady(worker, 60, TIMERS, limit, held);
    }

    method Complete(id: TaskId, worker: Worker, vars: Variables) returns (r: Result<(), TaskError>)
      modifies this
      ensures View() == Apply(old(View()), TaskTable.Complete(id, worker, vars))
      ensures r == if old(Completable(View(), id, worker)) then Success(()) else Failure(NotCompletable(id))
    {
      if id in rows && rows[id].state.LOCKED? && rows[id].lockOwner == Some(worker)
         && rows[id].lockExpireAt.Some? && rows[id].lockExpireAt.value > now {
        rows := rows[id := rows[id].(state := COMPLETED, variables := rows[id].variables + vars, result := vars,
          updatedAt := now)];
        r := Success(());
      } else {
        r := Failure(NotCompletable(id));
      }
    }

    /** No effect, and no error, unless the worker holds the task; the lease may have expired. */
    method Fail(id: TaskId, worker: Worker, error: string, retryAfter: Option<nat>) returns (r: Result<(), TaskError>)
      modifies this
      ensures View() == Apply(old(View()), TaskTable.Fail(id, worker, error, retryAfter))
      ensures r.Failure? <==>
              old(id in rows && rows[id].state.LOCKED? && rows[id].lockOwner == Some(worker)
              && rows[id].retries <= I32_MIN)
    {
      var delay := if retryAfter.Some? then retryAfter.value else 0;
      if id in rows && rows[id].state.LOCKED? && rows[id].lockOwner == Some(worker) {
        var row := rows[id];
        if row.retries <= I32_MIN {
          return Failure(RetriesUnderflow(id));
        }
        rows := rows[id := row.(
          retries := row.retries - 1,
          state := if row.retries - 1 > 0 then READY else FAILED,
          errorMessage := Some(error), lockOwner := None, lockExpireAt := None,
          dueAt := if row.retries - 1 > 0 then now + delay else row.dueAt,
          updatedAt := now)];
      }
      r := Success(());
    }

    method ReclaimExpiredLocks() returns (count: nat)
      modifies this
      ensures View() == Apply(old(View()), Reclaim)
      ensures rows.Keys == old(rows).Keys
      ensures forall id :: id in rows && rows[id] != old(rows)[id] ==> rows[id].state.READY?
      ensures count == |Changed(old(rows), rows)|
    {
      var expired := set id | id in rows && rows[id].state.LOCKED? && rows[id].lockExpireAt.Some?
        && rows[id].lockExpireAt.value < now;
      rows := map id | id in rows ::
        if id in expired
        then rows[id].(state := READY, lockOwner := None, lockExpireAt := None, updatedAt := now)
        else rows[id];
      ReclaimChanges(old(View()));
      assert View() == Apply(old(View()), Reclaim);
      assert expired == set id | id in old(rows) && Expired(old(View()), id);
      count := |expired|;
    }

    method CancelForInstance(inst: InstanceId) returns (count: nat)
      modifies this
      ensures View() == Apply(old(View()), CancelFor(inst))
      ensures rows.Keys == old(rows).Keys
      ensures forall id :: id in rows && old(rows)[id].instanceId != inst ==> rows[id] == old(rows)[id]
      ensures forall id :: id in rows && old(rows)[id].instanceId == inst ==> !Open(rows[id])
      ensures count == |Changed(old(rows), rows)|
    {
      var open := set id | id in rows && rows[id].instanceId == inst
        && (rows[id].state.READY? || rows[id].state.LOCKED?);
      rows := map id | id in rows ::
        if id in open
        then rows[id].(state := FAILED, errorMessage := Some("instance cancelled"), lockOwner := None,
                       lockExpireAt := None, updatedAt := now)
        else rows[id];
      CancelChanges(old(View()), inst);
      assert View() == Apply(old(View()), CancelFor(inst));
      assert open == OpenOf(old(rows), inst);
      count := |open|;
    }

    /** The oldest tasks whose token transition may never have finished. */
    method Unadvanced(limit: nat) returns (picked: seq<TaskId>)
      ensures OldestFirst(Backlog(rows, now - GRACE), Ages(rows), limit, picked)
    {
      var stale := set id | id in rows && rows[id].state.COMPLETED? && rows[id].advancedAt.None?
        && rows[id].updatedAt < now - GRACE;
      assert stale == Backlog(rows, now - GRACE);
      picked := OrderByLimit(stale, Ages(rows), limit);
    }

    /** A missing row counts as advanced: there is nothing left to do for it. */
    method IsAdvanced(id: TaskId) returns (r: bool)
      ensures !r <==> id in rows && rows[id].advancedAt.None?
    {
      r := if id in rows then rows[id].advancedAt.Some? else true;
    }

    method MarkAdvanced(id: TaskId)
      modifies this
      ensures View() == Apply(old(View()), TaskTable.MarkAdvanced(id))
    {
      if id in rows {
        rows := rows[id := rows[id].(advancedAt := Some(now))];
      }
    }

    method ResultOf(id: TaskId) returns (vars: Variables)
      ensures vars == if id in rows then rows[id].result else map[]
    {
      vars := if id in rows then rows[id].result else map[];
    }

    method Get(id: TaskId) returns (r: Option<Row>)
      ensures r == if id in rows then Some(rows[id]) else None
    {
      r := if id in rows then Some(rows[id]) else None;
    }
  }
}
