/**
 Cancelling an instance (routes/process/cancel.rs): load, check that it runs, end every token that has
 not ended, save, and then close the open tasks, in two separate writes.
 */
module CancelInstance {
  import opened Wrappers
  import opened ProcessModel
  import opened ProcessStore
  import TaskTable
  import TaskStore

  datatype CancelError = NotFound | NotRunning | Unexpected(error: StoreError)

  /** The INT columns hold 32-bit values. */
  ghost predicate ColumnsFit(t: Tables) {
    && (forall id :: id in t.instances ==> t.instances[id].version < I32_LIMIT)
    && (forall k :: k in t.tokens ==> t.tokens[k].version < I32_LIMIT && t.tokens[k].attempt < I32_LIMIT)
  }

  /** Saving only ever writes values that fit. */
  lemma SaveKeepsColumns(t: Tables, p: ProcessInstance)
    requires ColumnsFit(t) && Storable(p)
    ensures ColumnsFit(Saved(t, p))
  {
    forall k | k in Saved(t, p).tokens
      ensures Saved(t, p).tokens[k].version < I32_LIMIT && Saved(t, p).tokens[k].attempt < I32_LIMIT
    {
      TokenRowsAt(p.id, p.tokens, k);
      if k.0 == p.id { SavedRow(t, p, k); }
    }
  }

  /** A token row once its instance is cancelled: a status text that says finished stays. */
  function CancelledRow(r: TokenRow): TokenRow {
    r.(status := if r.status == "Completed" || r.status == "Terminated" then r.status else "Terminated",
      updatedAt := None)
  }

  /** The process tables once the instance is cancelled. */
  ghost predicate CancelWrites(t: Tables, id: InstanceId, t': Tables) {
    && id in t.instances
    && t'.instances == t.instances[id := t.instances[id].(state := "Terminated")]
    && t'.tokens.Keys == t.tokens.Keys
    && forall k :: k in t.tokens ==> t'.tokens[k] == if k.0 == id then CancelledRow(t.tokens[k]) else t.tokens[k]
  }

  /** Other instances, and their tokens, are as before. */
  ghost predicate OthersStay(t: Tables, t': Tables, id: InstanceId) {
    && (forall i :: i != id ==> (i in t'.instances <==> i in t.instances))
    && (forall i :: i != id && i in t.instances && i in t'.instances ==> t'.instances[i] == t.instances[i])
    && (forall k: Key :: k.0 != id ==> (k in t'.tokens <==> k in t.tokens))
    && (forall k: Key :: k.0 != id && k in t.tokens && k in t'.tokens ==> t'.tokens[k] == t.tokens[k])
  }

  function Ended(t: Token): Token {
    if Terminal(t.status) then t else t.(status := TokenStatus.Terminated)
  }

  method EndTokens(tokens: seq<Token>) returns (r: seq<Token>)
    ensures |r| == |tokens| && forall i :: 0 <= i < |tokens| ==> r[i] == Ended(tokens[i])
  {
    r := tokens;
    for i := 0 to |tokens|
      invariant |r| == |tokens|
      invariant forall j :: 0 <= j < i ==> r[j] == Ended(tokens[j])
      invariant forall j :: i <= j < |tokens| ==> r[j] == tokens[j]
    {
      if !Terminal(r[i].status) {
        r := r[i := r[i].(status := TokenStatus.Terminated)];
      }
    }
  }

  lemma EndedStorable(t: Tables, p: ProcessInstance, ended: seq<Token>)
    requires ColumnsFit(t) && Loads(t, p.id, Success(Some(p)))
    requires |ended| == |p.tokens| && forall i :: 0 <= i < |p.tokens| ==> ended[i] == Ended(p.tokens[i])
    ensures Storable(p.(state := InstanceState.Terminated, tokens := ended))
  {
    forall u | u in ended ensures TokenFits(u) {
      var i :| 0 <= i < |ended| && ended[i] == u;
      assert p.tokens[i] in p.tokens;
    }
  }

  lemma EndedRow(id: TokenId, r: TokenRow, t: Token)
    requires TokenOfRow(id, r) == Some(t)
    ensures RowOfToken(Ended(t)) == CancelledRow(r)
  {
    CodecsRoundTrip(r.status, Running, t.status, t.mode);
    CodecsRoundTrip(r.mode, Running, t.status, t.mode);
  }

  /** Saving the ended instance is what cancelling writes. */
  lemma EndedSaveCancels(t: Tables, p: ProcessInstance, ended: seq<Token>)
    requires ColumnsFit(t) && Loads(t, p.id, Success(Some(p)))
    requires |ended| == |p.tokens| && forall i :: 0 <= i < |p.tokens| ==> ended[i] == Ended(p.tokens[i])
    ensures CancelWrites(t, p.id, Saved(t, p.(state := InstanceState.Terminated, tokens := ended)))
  {
    var q := p.(state := InstanceState.Terminated, tokens := ended);
    var t' := Saved(t, q);
    EndedStorable(t, p, ended);
    forall k
      ensures k in t'.tokens <==> k in t.tokens
      ensures k in t.tokens ==> t'.tokens[k] == if k.0 == p.id then CancelledRow(t.tokens[k]) else t.tokens[k]
    {
      if k.0 == p.id {
        CancelledTokenRow(t, p, q, k);
      } else {
        SaveKeepsOthers(t, q, k);
      }
    }
  }

  lemma CancelledTokenRow(t: Tables, p: ProcessInstance, q: ProcessInstance, k: Key)
    requires Loads(t, p.id, Success(Some(p))) && Storable(q) && q.id == p.id && k.0 == p.id
    requires |q.tokens| == |p.tokens| && forall i :: 0 <= i < |p.tokens| ==> q.tokens[i] == Ended(p.tokens[i])
    ensures k in Saved(t, q).tokens <==> k in t.tokens
    ensures k in t.tokens ==> Saved(t, q).tokens[k] == CancelledRow(t.tokens[k])
  {
    if k in t.tokens { CancelledTokenStays(t, p, q, k); }
    if k in Saved(t, q).tokens {
      SavedRow(t, q, k);
      var v :| v in q.tokens && v.id == k.1;
      var i :| 0 <= i < |q.tokens| && q.tokens[i] == v;
      assert p.tokens[i] in p.tokens;
    }
  }

  lemma CancelledTokenStays(t: Tables, p: ProcessInstance, q: ProcessInstance, k: Key)
    requires Loads(t, p.id, Success(Some(p))) && Storable(q) && q.id == p.id && k.0 == p.id && k in t.tokens
    requires |q.tokens| == |p.tokens| && forall i :: 0 <= i < |p.tokens| ==> q.tokens[i] == Ended(p.tokens[i])
    ensures k in Saved(t, q).tokens && Saved(t, q).tokens[k] == CancelledRow(t.tokens[k])
  {
    SavedRow(t, q, k);
    var u :| u in p.tokens && u.id == k.1;
    var i :| 0 <= i < |p.tokens| && p.tokens[i] == u;
    assert q.tokens[i] in q.tokens && q.tokens[i].id == k.1;
    EndedRow(u.id, t.tokens[k], u);
  }

  /** Both writes, or neither when the instance is missing, unreadable or not running. */
  method Cancel(db: Database, ext: TaskStore.Store, id: InstanceId) returns (r: Result<(), CancelError>)
    requires ColumnsFit(db.View())
    modifies db, ext
    ensures r.Success? <==> old(Decodable(db.View(), id) && InstanceStateOf(db.instances[id].state) == Some(Running))
    ensures r == Failure(NotFound) <==> id !in old(db.instances)
    ensures r == Failure(NotRunning) <==>
              old(Decodable(db.View(), id) && InstanceStateOf(db.instances[id].state) != Some(Running))
    ensures r.Failure? ==> db.View() == old(db.View()) && ext.View() == old(ext.View())
    ensures r.Success? ==>
              && CancelWrites(old(db.View()), id, db.View())
              && ext.View() == TaskTable.Apply(old(ext.View()), TaskTable.CancelFor(id))
    ensures ext.rows.Keys == old(ext.rows).Keys
    ensures forall j :: j in ext.rows && old(ext.rows)[j].instanceId != id ==> ext.rows[j] == old(ext.rows)[j]
    ensures OthersStay(old(db.View()), db.View(), id)
    ensures ColumnsFit(db.View())
  {
    var loaded := db.Load(id);
    if loaded.Failure? {
      return Failure(Unexpected(loaded.error));
    }
    if loaded.value.None? {
      return Failure(NotFound);
    }
    var instance := loaded.value.value;
    if !instance.state.Running? {
      return Failure(NotRunning);
    }
    var ended := EndTokens(instance.tokens);
    EndedStorable(db.View(), instance, ended);
    EndedSaveCancels(db.View(), instance, ended);
    instance := instance.(state := InstanceState.Terminated, tokens := ended);
    SaveKeepsColumns(db.View(), instance);
    // What was loaded fits the columns, so this write is not refused.
    var saved := db.Save(instance);
    assert saved.Success?;
    var count := ext.CancelForInstance(id);
    r := Success(());
  }

  /** The token after the cancel: Completed or Terminated as it was, and Terminated otherwise. */
  ghost predicate EndsAs(id: TokenId, r: TokenRow, r': TokenRow) {
    && TokenOfRow(id, r).Some? && TokenOfRow(id, r').Some?
    && var t, t' := TokenOfRow(id, r).value, TokenOfRow(id, r').value;
       && t' == t.(status := t'.status, updatedAt := t'.updatedAt)
       && t'.status == match t.status
                       case Completed => TokenStatus.Completed
                       case _ => TokenStatus.Terminated
  }

  /** After a cancel every token of the instance is terminal, those that had ended as they had, and none of its
      tasks is open. */
  lemma CancelEndsEverything(t: Tables, w: TaskTable.World, id: InstanceId, t': Tables, w': TaskTable.World)
    requires Decodable(t, id) && CancelWrites(t, id, t') && w' == TaskTable.Apply(w, TaskTable.CancelFor(id))
    ensures InstanceStateOf(t'.instances[id].state) == Some(InstanceState.Terminated)
    ensures forall k :: k in t.tokens && k.0 == id ==> k in t'.tokens && EndsAs(k.1, t.tokens[k], t'.tokens[k])
    ensures forall k :: k in t'.tokens && k.0 == id ==>
              TokenOfRow(k.1, t'.tokens[k]).Some? && Terminal(TokenOfRow(k.1, t'.tokens[k]).value.status)
    ensures forall j :: j in w'.rows && w'.rows[j].instanceId == id ==> !TaskTable.Open(w'.rows[j])
    ensures OthersStay(t, t', id)
  {
    forall k | k in t.tokens && k.0 == id ensures EndsAs(k.1, t.tokens[k], t'.tokens[k]) {
      CancelledEndsAs(k.1, t.tokens[k]);
    }
  }

  lemma CancelledEndsAs(id: TokenId, r: TokenRow)
    requires TokenOfRow(id, r).Some?
    ensures EndsAs(id, r, CancelledRow(r)) && Terminal(TokenOfRow(id, CancelledRow(r)).value.status)
  {
    CodecsRoundTrip(r.status, Running, TokenOfRow(id, r).value.status, Forward);
  }
}
