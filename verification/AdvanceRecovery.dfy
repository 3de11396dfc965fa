/**
 Recovery in the advance protocol. From every reachable state, a reconciler whose event takes effect settles a
 completed task, firing exactly when the transition is owed, whatever others do elsewhere meanwhile: every run of
 it does, and from every point of it the reconciler can finish on its own.
 */
module AdvanceRecovery {
  import opened Wrappers
  import opened ProcessModel
  import opened TaskTable
  import opened AdvanceProtocol
  import opened AdvanceSafety
  import TaskStore

  /** What the caller does next: its next statement, or an event that takes effect. */
  predicate StepOf(c: CallerId, a: Act) {
    (a.Move? && a.c == c) || (a.Fire? && a.c == c && a.moved)
  }

  /** The task's row and its instance stay as they are, and so does the caller. */
  ghost predicate SameAround(s: Sys, s': Sys, c: CallerId, t: Task) {
    && (t.id in s.db.store.rows ==> t.id in s'.db.store.rows && s'.db.store.rows[t.id] == s.db.store.rows[t.id])
    && (t.ref.inst in s'.db.insts <==> t.ref.inst in s.db.insts)
    && (t.ref.inst in s.db.insts ==> s'.db.insts[t.ref.inst] == s.db.insts[t.ref.inst])
    && (c in s'.callers <==> c in s.callers) && (c in s.callers ==> s'.callers[c] == s.callers[c])
  }

  /** Somebody else's step, which keeps away: from the lock, unless it frees it, and from the task and its instance. */
  ghost predicate KeepsAway(h: LockKey, s: Sys, a: Act, c: CallerId, t: Task)
    requires Can(s, a)
  {
    var s' := Do(h, s, a);
    && (a.Move? || a.Fire? || a.Crash? ==> a.c != c)
    && SameAround(s, s', c, t) && (h(t.id) in s'.locks ==> h(t.id) in s.locks)
  }

  /** A run of the caller's own steps among those of others that keep away. */
  ghost predicate Undisturbed(h: LockKey, s: Sys, c: CallerId, t: Task, acts: seq<Act>)
    decreases |acts|
  {
    acts == [] ||
    (&& Can(s, acts[0]) && (StepOf(c, acts[0]) || KeepsAway(h, s, acts[0], c, t))
     && Undisturbed(h, Do(h, s, acts[0]), c, t, acts[1..]))
  }

  ghost predicate Alone(c: CallerId, acts: seq<Act>) {
    forall a :: a in acts ==> StepOf(c, a)
  }

  function Owing(m: Insts, r: Ref): nat {
    if Owed(m, r) then 1 else 0
  }

  /** The caller at k has yet to bring the count of events of its task from `base` to `base + n`, or has done so. */
  ghost predicate Stage(h: LockKey, s: Sys, k: Caller, t: Task, base: nat, n: nat)
    requires t.id in s.db.store.rows
  {
    var f, marked := Fired(s.db.fired, t.id), s.db.store.rows[t.id].advancedAt.Some?;
    match k
    case AtTryLock(u) => u == t && h(t.id) !in s.locks && !marked && f == base && n == Owing(s.db.insts, t.ref)
    case AtIsAdvanced(u) => u == t && !marked && f == base && n == Owing(s.db.insts, t.ref)
    case AtLoadRow(u) => u == t && f == base && n == Owing(s.db.insts, t.ref)
    case AtLoadTokens(u, seen) =>
      && u == t && f == base && n == Owing(s.db.insts, t.ref)
      && t.ref.inst in s.db.insts && seen == s.db.insts[t.ref.inst].state
    case AtResult(u, _) => u == t && f == base && n == 1 && Has(s.db.insts, t.ref)
    case AtFire(u) => u == t && f == base && n == 1 && Has(s.db.insts, t.ref)
    case AtCheckRow(u) => u == t && f == base + n && !Has(s.db.insts, t.ref)
    case AtCheckTokens(u) => u == t && f == base + n && !Has(s.db.insts, t.ref)
    case AtMark(u) => u == t && f == base + n
    case AtCommit(u) => u == t && f == base + n && marked
    case _ => false
  }

  /** The caller is on its way, or gone with the task marked and the events counted. */
  ghost predicate OnTrack(h: LockKey, s: Sys, c: CallerId, t: Task, base: nat, n: nat) {
    && Safe(h, s) && TaskOk(s.db, t) && t.id in s.db.store.rows
    && if c in s.callers then Stage(h, s, s.callers[c], t, base, n)
       else Settled(s.db, t.id, base + n) && h(t.id) !in s.locks
  }

  /** The task is marked advanced, after so many events. */
  predicate Settled(d: Db, id: TaskId, events: nat) {
    id in d.store.rows && d.store.rows[id].advancedAt.Some? && Fired(d.fired, id) == events
  }

  /** How many statements the caller has left at most. */
  function Rank(k: Caller): nat {
    match k
    case AtTryLock(_) => 10
    case AtIsAdvanced(_) => 9
    case AtLoadRow(_) => 8
    case AtLoadTokens(_, _) => 7
    case AtResult(_, _) => 6
    case AtFire(_) => 5
    case AtCheckRow(_) => 4
    case AtCheckTokens(_) => 3
    case AtMark(_) => 2
    case AtCommit(_) => 1
    case _ => 0
  }

  /** A token that is owed waits, and the result to merge is empty. */
  lemma OwedWaits(d: Db, t: Task)
    requires DbOk(d) && TaskOk(d, t) && t.id in d.store.rows
    ensures Owed(d.insts, t.ref) <==> IsRunning(d.insts, t.ref.inst) && WaitingAt(d.insts, t.ref)
    ensures d.store.rows[t.id].result == map[]
  {
  }

  /** The caller has moved on within its stage, or left with everything settled. */
  ghost predicate MovedOn(h: LockKey, s: Sys, s': Sys, c: CallerId, t: Task, base: nat, n: nat)
    requires c in s.callers
  {
    && t.id in s'.db.store.rows
    && if c in s'.callers then Stage(h, s', s'.callers[c], t, base, n) && Rank(s'.callers[c]) < Rank(s.callers[c])
       else Settled(s'.db, t.id, base + n)
  }

  /** A caller that leaves from past the lock takes its lock along. */
  lemma LeavingFrees(h: LockKey, s: Sys, c: CallerId, id: TaskId)
    requires c in s.callers && HoldsLock(h, s.locks, c, id)
    requires c !in Proceed(h, s, c).callers
    ensures h(id) !in Proceed(h, s, c).locks
  {
  }

  lemma DecideMovesOn(h: LockKey, s: Sys, c: CallerId, t: Task, base: nat, n: nat)
    requires c in s.callers && t.id in s.db.store.rows && Stage(h, s, s.callers[c], t, base, n)
    requires Owed(s.db.insts, t.ref) <==> IsRunning(s.db.insts, t.ref.inst) && WaitingAt(s.db.insts, t.ref)
    requires Rank(s.callers[c]) > 6
    ensures MovedOn(h, s, Proceed(h, s, c), c, t, base, n) && Proceed(h, s, c).db == s.db
  {
  }

  lemma FinishMovesOn(h: LockKey, s: Sys, c: CallerId, t: Task, base: nat, n: nat)
    requires c in s.callers && t.id in s.db.store.rows && Stage(h, s, s.callers[c], t, base, n)
    requires s.db.store.rows[t.id].result == map[]
    requires var k := s.callers[c]; k.AtResult? || k.AtCheckRow? || k.AtCheckTokens? || k.AtCommit?
    ensures MovedOn(h, s, Proceed(h, s, c), c, t, base, n) && Proceed(h, s, c).db == s.db
  {
  }

  lemma MarkMovesOn(h: LockKey, s: Sys, c: CallerId, t: Task, base: nat, n: nat)
    requires c in s.callers && t.id in s.db.store.rows && s.callers[c] == AtMark(t)
    requires Fired(s.db.fired, t.id) == base + n
    ensures MovedOn(h, s, Proceed(h, s, c), c, t, base, n)
    ensures Proceed(h, s, c).db == WithStore(s.db, MarkAdvanced(t.id))
  {
  }

  lemma FireMovesOn(h: LockKey, s: Sys, a: Act, t: Task, base: nat)
    requires a.Fire? && a.moved && Can(s, a) && t.id in s.db.store.rows && s.callers[a.c] == AtFire(t)
    requires Fired(s.db.fired, t.id) == base && Has(s.db.insts, t.ref) && t.ref in s.db.usedTokens
    ensures MovedOn(h, s, Do(h, s, a), a.c, t, base, 1)
    ensures Do(h, s, a).db == Event(s.db, t, true, a.born, a.finished)
  {
  }

  lemma MoveOnTrack(h: LockKey, s: Sys, c: CallerId, t: Task, base: nat, n: nat)
    requires OnTrack(h, s, c, t, base, n) && c in s.callers && !s.callers[c].AtFire?
    ensures MovedOn(h, s, Proceed(h, s, c), c, t, base, n) && TaskOk(Proceed(h, s, c).db, t)
  {
    assert CallerOk(h, s, c);
    OwedWaits(s.db, t);
    if s.callers[c].AtMark? {
      MarkMovesOn(h, s, c, t, base, n);
      MarkKeepsDb(s.db, t);
    } else if Rank(s.callers[c]) > 6 {
      DecideMovesOn(h, s, c, t, base, n);
    } else {
      FinishMovesOn(h, s, c, t, base, n);
    }
  }

  lemma FireOnTrack(h: LockKey, s: Sys, a: Act, t: Task, base: nat, n: nat)
    requires a.Fire? && a.moved && OnTrack(h, s, a.c, t, base, n) && Can(s, a)
    ensures MovedOn(h, s, Do(h, s, a), a.c, t, base, n) && TaskOk(Do(h, s, a).db, t)
  {
    assert CallerOk(h, s, a.c);
    FireMovesOn(h, s, a, t, base);
    EventKeepsDb(s.db, t, true, a.born, a.finished);
    assert ReliesOn(s.db, AtCheckRow(t));
    CalmKeepsReliance(s.db, Do(h, s, a).db, {t.id}, AtCheckRow(t));
  }

  lemma StepOnTrack(h: LockKey, s: Sys, c: CallerId, a: Act, t: Task, base: nat, n: nat)
    requires OnTrack(h, s, c, t, base, n) && StepOf(c, a) && Can(s, a)
    ensures OnTrack(h, Do(h, s, a), c, t, base, n)
    ensures c in Do(h, s, a).callers ==> Rank(Do(h, s, a).callers[c]) < Rank(s.callers[c])
  {
    StepSafe(h, s, a);
    if a.Fire? {
      FireOnTrack(h, s, a, t, base, n);
    } else {
      MoveOnTrack(h, s, c, t, base, n);
      LeaverFrees(h, s, c, t, base, n);
    }
  }

  lemma LeaverFrees(h: LockKey, s: Sys, c: CallerId, t: Task, base: nat, n: nat)
    requires OnTrack(h, s, c, t, base, n) && c in s.callers && !s.callers[c].AtFire?
    ensures c !in Proceed(h, s, c).callers ==> h(t.id) !in Proceed(h, s, c).locks
  {
    assert CallerOk(h, s, c);
    if c !in Proceed(h, s, c).callers { LeavingFrees(h, s, c, t.id); }
  }

  /** No other caller is past the lock of the task. */
  lemma NobodyElseInside(h: LockKey, s: Sys, c: CallerId, t: Task, base: nat, n: nat, b: CallerId)
    requires OnTrack(h, s, c, t, base, n) && b in s.callers && b != c && Inside(s.callers[b])
    ensures s.callers[b].t.id != t.id
  {
    assert CallerOk(h, s, b);
    if c in s.callers { assert CallerOk(h, s, c); }
  }

  lemma EventCountsItsOwn(d: Db, u: Task, moved: bool, born: map<TokenId, TokenStatus>, finished: bool, id: TaskId)
    requires u.id != id
    ensures Fired(Event(d, u, moved, born, finished).fired, id) == Fired(d.fired, id)
  {
  }

  /** So no event is counted for the task by a step that keeps away. */
  lemma AwayCountsNothing(h: LockKey, s: Sys, a: Act, c: CallerId, t: Task, base: nat, n: nat)
    requires OnTrack(h, s, c, t, base, n) && Can(s, a) && (a.Fire? ==> a.c != c)
    ensures Fired(Do(h, s, a).db.fired, t.id) == Fired(s.db.fired, t.id)
  {
    if a.Fire? {
      NobodyElseInside(h, s, c, t, base, n, a.c);
      EventCountsItsOwn(s.db, s.callers[a.c].t, a.moved, a.born, a.finished, t.id);
    } else if a.Move? {
      MoveFiresNothing(h, s, a.c);
    }
  }

  lemma StepKeepsNames(h: LockKey, s: Sys, a: Act)
    requires Safe(h, s) && Can(s, a)
    ensures s.db.usedInsts <= Do(h, s, a).db.usedInsts
    ensures forall id :: id in s.db.history ==>
              id in Do(h, s, a).db.history && Do(h, s, a).db.history[id] == s.db.history[id]
  {
    if a.Move? { MoveFiresNothing(h, s, a.c); }
  }

  lemma AwayOnTrack(h: LockKey, s: Sys, a: Act, c: CallerId, t: Task, base: nat, n: nat)
    requires OnTrack(h, s, c, t, base, n) && Can(s, a) && KeepsAway(h, s, a, c, t)
    ensures OnTrack(h, Do(h, s, a), c, t, base, n)
  {
    StepSafe(h, s, a);
    StepKeepsNames(h, s, a);
    AwayCountsNothing(h, s, a, c, t, base, n);
    SameStage(h, s, Do(h, s, a), c, t, base, n);
  }

  /** The stage depends on nothing but what stays the same. */
  lemma SameStage(h: LockKey, s: Sys, s': Sys, c: CallerId, t: Task, base: nat, n: nat)
    requires OnTrack(h, s, c, t, base, n) && SameAround(s, s', c, t)
    requires h(t.id) in s'.locks ==> h(t.id) in s.locks
    requires Fired(s'.db.fired, t.id) == Fired(s.db.fired, t.id)
    ensures if c in s'.callers then Stage(h, s', s'.callers[c], t, base, n)
            else Settled(s'.db, t.id, base + n) && h(t.id) !in s'.locks
  {
    assert Has(s'.db.insts, t.ref) == Has(s.db.insts, t.ref) && Owed(s'.db.insts, t.ref) == Owed(s.db.insts, t.ref);
  }

  lemma {:induction false} RunOnTrack(h: LockKey, s: Sys, c: CallerId, acts: seq<Act>, t: Task, base: nat, n: nat)
    requires OnTrack(h, s, c, t, base, n) && Undisturbed(h, s, c, t, acts)
    ensures Runs(h, s, acts) && OnTrack(h, EndOf(h, s, acts), c, t, base, n)
    decreases |acts|
  {
    if acts != [] {
      var a := acts[0];
      if StepOf(c, a) { StepOnTrack(h, s, c, a, t, base, n); } else { AwayOnTrack(h, s, a, c, t, base, n); }
      RunOnTrack(h, Do(h, s, a), c, acts[1..], t, base, n);
    }
  }

  /** As long as the caller is there, it can go on. */
  lemma {:induction false} RunToEnd(h: LockKey, s: Sys, c: CallerId, t: Task, base: nat, n: nat)
    returns (acts: seq<Act>)
    requires OnTrack(h, s, c, t, base, n)
    ensures Alone(c, acts) && Runs(h, s, acts) && c !in EndOf(h, s, acts).callers
    ensures |acts| <= if c in s.callers then Rank(s.callers[c]) else 0
    decreases if c in s.callers then Rank(s.callers[c]) + 1 else 0
  {
    if c !in s.callers {
      acts := [];
    } else {
      var a := if s.callers[c].AtFire? then Fire(c, true, map[], false) else Move(c);
      StepOnTrack(h, s, c, a, t, base, n);
      var rest := RunToEnd(h, Do(h, s, a), c, t, base, n);
      acts := [a] + rest;
      assert acts[1..] == rest;
    }
  }

  lemma ReconcilerStarts(h: LockKey, s: Sys, c: CallerId, id: TaskId)
    requires Reachable(h, s) && c !in s.callers && h(id) !in s.locks
    requires TaskStore.Stale(s.db.store.rows, s.db.store.now - TaskStore.GRACE, id)
    ensures var t := TaskFor(s.db, id);
            OnTrack(h, Do(h, s, NewReconciler(c, id)), c, t, Fired(s.db.fired, id), Owing(s.db.insts, t.ref))
  {
    ReachableSafe(h, s);
    FetchedTaskOk(s.db, id);
    StepSafe(h, s, NewReconciler(c, id));
  }

  /** Crash recovery. Whatever callers did and wherever they died, a completed task that is not marked, is old
      enough and whose lock is free is settled by one reconciler, among steps of others that keep away: whatever
      run it takes to its end, the task is then marked, after one event if the transition was owed, and after none
      otherwise. */
  lemma ReconcilerSettles(h: LockKey, s: Sys, c: CallerId, id: TaskId, acts: seq<Act>)
    requires Reachable(h, s) && c !in s.callers && h(id) !in s.locks
    requires TaskStore.Stale(s.db.store.rows, s.db.store.now - TaskStore.GRACE, id)
    requires Undisturbed(h, Do(h, s, NewReconciler(c, id)), c, TaskFor(s.db, id), acts)
    ensures Runs(h, Do(h, s, NewReconciler(c, id)), acts)
    ensures var e := EndOf(h, Do(h, s, NewReconciler(c, id)), acts);
            c !in e.callers ==>
              Settled(e.db, id, Fired(s.db.fired, id) + Owing(s.db.insts, RefOf(s.db.store.rows[id])))
  {
    ReconcilerStarts(h, s, c, id);
    RunOnTrack(h, Do(h, s, NewReconciler(c, id)), c, acts, TaskFor(s.db, id), Fired(s.db.fired, id),
      Owing(s.db.insts, RefOf(s.db.store.rows[id])));
  }

  /** And it never hangs: from every point of such a run it can come to its end in at most ten steps of its own. */
  lemma ReconcilerFinishes(h: LockKey, s: Sys, c: CallerId, id: TaskId, acts: seq<Act>) returns (rest: seq<Act>)
    requires Reachable(h, s) && c !in s.callers && h(id) !in s.locks
    requires TaskStore.Stale(s.db.store.rows, s.db.store.now - TaskStore.GRACE, id)
    requires Undisturbed(h, Do(h, s, NewReconciler(c, id)), c, TaskFor(s.db, id), acts)
    ensures Runs(h, Do(h, s, NewReconciler(c, id)), acts)
    ensures var e := EndOf(h, Do(h, s, NewReconciler(c, id)), acts);
            Alone(c, rest) && |rest| <= 10 && Runs(h, e, rest) && c !in EndOf(h, e, rest).callers
  {
    var t, base, n := TaskFor(s.db, id), Fired(s.db.fired, id), Owing(s.db.insts, RefOf(s.db.store.rows[id]));
    ReconcilerStarts(h, s, c, id);
    RunOnTrack(h, Do(h, s, NewReconciler(c, id)), c, acts, t, base, n);
    rest := RunToEnd(h, EndOf(h, Do(h, s, NewReconciler(c, id)), acts), c, t, base, n);
  }
}
