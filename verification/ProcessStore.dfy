/**
 The process instance store (pg_process_store.rs): two tables updated in place, the text codecs of the
 enumerations, `save` as one transaction that replaces the whole token set, `load`, and the two
 compare-and-swap statements on a single token. Versions are unsigned 32-bit in memory and signed
 32-bit in the tables.
 */
module ProcessStore {
  import opened Wrappers
  import opened ProcessModel

  const I32_LIMIT: int := 0x8000_0000

  // ---------- Codecs ----------

  function InstanceStateText(s: InstanceState): string {
    match s
    case Running => "Running"
    case Completed => "Completed"
    case Terminated => "Terminated"
  }

  function InstanceStateOf(text: string): Option<InstanceState> {
    if text == "Running" then Some(Running)
    else if text == "Completed" then Some(InstanceState.Completed)
    else if text == "Terminated" then Some(InstanceState.Terminated)
    else None
  }

  function TokenStatusText(s: TokenStatus): string {
    match s
    case Created => "Created"
    case Ready => "Ready"
    case Executing => "Executing"
    case Waiting => "Waiting"
    case Suspended => "Suspended"
    case Completed => "Completed"
    case Terminated => "Terminated"
  }

  function TokenStatusOf(text: string): Option<TokenStatus> {
    if text == "Created" then Some(Created)
    else if text == "Ready" then Some(Ready)
    else if text == "Executing" then Some(Executing)
    else if text == "Waiting" then Some(Waiting)
    else if text == "Suspended" then Some(Suspended)
    else if text == "Completed" then Some(TokenStatus.Completed)
    else if text == "Terminated" then Some(TokenStatus.Terminated)
    else None
  }

  function TokenModeText(m: TokenMode): string {
    match m
    case Forward => "Forward"
    case Compensation => "Compensation"
  }

  function TokenModeOf(text: string): Option<TokenMode> {
    if text == "Forward" then Some(Forward)
    else if text == "Compensation" then Some(Compensation)
    else None
  }

  /** Each codec accepts exactly the texts it writes, and reads each back as what was written. */
  lemma CodecsRoundTrip(text: string, i: InstanceState, s: TokenStatus, m: TokenMode)
    ensures InstanceStateOf(text) == Some(i) <==> text == InstanceStateText(i)
    ensures TokenStatusOf(text) == Some(s) <==> text == TokenStatusText(s)
    ensures TokenModeOf(text) == Some(m) <==> text == TokenModeText(m)
  {
    assert InstanceStateOf(InstanceStateText(i)) == Some(i);
    assert TokenStatusOf(TokenStatusText(s)) == Some(s);
    assert TokenModeOf(TokenModeText(m)) == Some(m);
  }

  /** The texts in the tables. */
  lemma TextsStored()
    ensures InstanceStateOf("Running") == Some(Running) && InstanceStateOf("Completed") == Some(InstanceState.Completed)
    ensures InstanceStateOf("Terminated") == Some(InstanceState.Terminated)
    ensures TokenStatusOf("Created") == Some(Created) && TokenStatusOf("Ready") == Some(Ready)
    ensures TokenStatusOf("Executing") == Some(Executing) && TokenStatusOf("Waiting") == Some(Waiting)
    ensures TokenStatusOf("Suspended") == Some(Suspended) && TokenStatusOf("Completed") == Some(TokenStatus.Completed)
    ensures TokenStatusOf("Terminated") == Some(TokenStatus.Terminated)
    ensures TokenModeOf("Forward") == Some(Forward) && TokenModeOf("Compensation") == Some(Compensation)
  {
  }

  // ---------- Rows ----------

  datatype InstanceRow = InstanceRow(processDefId: string, tenantId: Option<string>, variables: Variables,
    state: string, version: int)

  datatype TokenRow = TokenRow(
    nodeId: NodeId, status: string, mode: string, version: int, attempt: int,
    parallelGroupId: Option<string>, updatedAt: Option<int>)

  type Key = (InstanceId, TokenId)

  datatype Tables = Tables(instances: map<InstanceId, InstanceRow>, tokens: map<Key, TokenRow>)

  function RowOfInstance(p: ProcessInstance): InstanceRow {
    InstanceRow(p.processDefId, p.tenantId, p.variables, InstanceStateText(p.state), p.version)
  }

  /** The inserted row: the audit timestamp is not written. */
  function RowOfToken(t: Token): TokenRow {
    TokenRow(t.nodeId, TokenStatusText(t.status), TokenModeText(t.mode), t.version, t.attempt, t.parallelGroupId, None)
  }

  function TokenOfRow(id: TokenId, r: TokenRow): Option<Token> {
    match (TokenStatusOf(r.status), TokenModeOf(r.mode))
    case (Some(s), Some(m)) =>
      if r.version < 0 || r.attempt < 0 then None
      else Some(Token(id, r.nodeId, s, m, r.version, r.attempt, r.parallelGroupId, r.updatedAt))
    case _ => None
  }

  // ---------- Save ----------

  predicate TokenFits(t: Token) {
    t.version < I32_LIMIT && t.attempt < I32_LIMIT
  }

  predicate DistinctIds(tokens: seq<Token>) {
    forall i, j :: 0 <= i < j < |tokens| ==> tokens[i].id != tokens[j].id
  }

  /** What a save can store. */
  predicate Storable(p: ProcessInstance) {
    && p.version < I32_LIMIT
    && (forall t :: t in p.tokens ==> TokenFits(t))
    && DistinctIds(p.tokens)
  }

  /** The rows inserted for a token list; with distinct ids, one row each. */
  function TokenRows(id: InstanceId, tokens: seq<Token>): map<Key, TokenRow> {
    if tokens == [] then map[]
    else TokenRows(id, tokens[..|tokens| - 1])[(id, tokens[|tokens| - 1].id) := RowOfToken(tokens[|tokens| - 1])]
  }

  function OtherTokens(tokens: map<Key, TokenRow>, id: InstanceId): map<Key, TokenRow> {
    map k | k in tokens && k.0 != id :: tokens[k]
  }

  /** The tables once p is saved. */
  function Saved(t: Tables, p: ProcessInstance): Tables {
    Tables(t.instances[p.id := RowOfInstance(p)], OtherTokens(t.tokens, p.id) + TokenRows(p.id, p.tokens))
  }

  lemma {:induction false} TokenRowsAt(id: InstanceId, tokens: seq<Token>, k: Key)
    requires DistinctIds(tokens)
    ensures k in TokenRows(id, tokens) <==> exists t :: t in tokens && k == (id, t.id)
    ensures forall t :: t in tokens ==>
              (id, t.id) in TokenRows(id, tokens) && TokenRows(id, tokens)[(id, t.id)] == RowOfToken(t)
  {
    if tokens != [] {
      var front, last := tokens[..|tokens| - 1], tokens[|tokens| - 1];
      assert tokens == front + [last];
      TokenRowsAt(id, front, k);
      assert forall t :: t in tokens <==> t in front || t == last;
      forall t | t in front ensures t.id != last.id {
        var i :| 0 <= i < |front| && front[i] == t;
        assert tokens[i] == t;
      }
    }
  }

  // ---------- Load ----------

  datatype StoreError = OutOfRange | DuplicateToken(id: TokenId) | Undecodable

  predicate Decodable(t: Tables, id: InstanceId) {
    && id in t.instances
    && InstanceStateOf(t.instances[id].state).Some? && 0 <= t.instances[id].version
    && forall k :: k in t.tokens && k.0 == id ==> TokenOfRow(k.1, t.tokens[k]).Some?
  }

  /** The list holds the decoded token rows of the instance, one each, in some order. */
  ghost predicate ListsTokens(rows: map<Key, TokenRow>, id: InstanceId, tokens: seq<Token>) {
    && DistinctIds(tokens)
    && (forall t :: t in tokens ==> (id, t.id) in rows && TokenOfRow(t.id, rows[(id, t.id)]) == Some(t))
    && (forall k :: k in rows && k.0 == id ==> exists t :: t in tokens && t.id == k.1)
  }

  /** What a load answers. */
  ghost predicate Loads(t: Tables, id: InstanceId, r: Result<Option<ProcessInstance>, StoreError>) {
    if id !in t.instances then r == Success(None)
    else if !Decodable(t, id) then r.Failure?
    else
      && r.Success? && r.value.Some?
      && var p, row := r.value.value, t.instances[id];
         && p.id == id && p.processDefId == row.processDefId && p.tenantId == row.tenantId
           && p.variables == row.variables
         && Some(p.state) == InstanceStateOf(row.state) && p.version == row.version
         && ListsTokens(t.tokens, id, p.tokens)
  }

  // ---------- Round trip ----------

  /** Equal up to the order of tokens and their audit timestamps. */
  ghost predicate SameInstance(p: ProcessInstance, q: ProcessInstance) {
    && q == p.(tokens := q.tokens)
    && |q.tokens| == |p.tokens|
    && (forall t :: t in p.tokens ==> t.(updatedAt := None) in q.tokens)
    && (forall u :: u in q.tokens ==> exists t :: t in p.tokens && u == t.(updatedAt := None))
  }

  /** Load gives back what save stored. */
  lemma SaveThenLoad(t: Tables, p: ProcessInstance, r: Result<Option<ProcessInstance>, StoreError>)
    requires Storable(p) && Loads(Saved(t, p), p.id, r)
    ensures r.Success? && r.value.Some? && SameInstance(p, r.value.value)
  {
    var s := Saved(t, p);
    RowsDecode(t, p);
    CodecsRoundTrip(InstanceStateText(p.state), p.state, Waiting, Forward);
    var q := r.value.value;
    forall u | u in p.tokens ensures u.(updatedAt := None) in q.tokens { StoredTokenLoads(t, p, q.tokens, u); }
    forall u | u in q.tokens
      ensures exists v :: v in p.tokens && u == v.(updatedAt := None)
    {
      LoadedTokenWasStored(t, p, q.tokens, u);
    }
    SameLength(p.tokens, q.tokens);
  }

  lemma TokenDecodes(t: Token)
    requires TokenFits(t)
    ensures TokenOfRow(t.id, RowOfToken(t)) == Some(t.(updatedAt := None))
  {
    CodecsRoundTrip(TokenStatusText(t.status), Running, t.status, Forward);
    CodecsRoundTrip(TokenModeText(t.mode), Running, Waiting, t.mode);
  }

  /** The token rows of the instance are exactly the saved ones. */
  lemma SavedRow(t: Tables, p: ProcessInstance, k: Key)
    requires Storable(p) && k.0 == p.id
    ensures k in Saved(t, p).tokens <==> exists u :: u in p.tokens && u.id == k.1
    ensures forall u :: u in p.tokens && u.id == k.1 ==> Saved(t, p).tokens[k] == RowOfToken(u)
  {
    TokenRowsAt(p.id, p.tokens, k);
    if k in Saved(t, p).tokens {
      var u :| u in p.tokens && k == (p.id, u.id);
    }
  }

  lemma RowsDecode(t: Tables, p: ProcessInstance)
    requires Storable(p)
    ensures Decodable(Saved(t, p), p.id)
  {
    var s := Saved(t, p);
    CodecsRoundTrip(InstanceStateText(p.state), p.state, Waiting, Forward);
    forall k | k in s.tokens && k.0 == p.id ensures TokenOfRow(k.1, s.tokens[k]).Some? {
      SavedRow(t, p, k);
      var u :| u in p.tokens && u.id == k.1;
      TokenDecodes(u);
    }
  }

  lemma StoredTokenLoads(t: Tables, p: ProcessInstance, tokens: seq<Token>, u: Token)
    requires Storable(p) && ListsTokens(Saved(t, p).tokens, p.id, tokens) && u in p.tokens
    ensures u.(updatedAt := None) in tokens
  {
    SavedRow(t, p, (p.id, u.id));
    TokenDecodes(u);
    assert (p.id, u.id) in Saved(t, p).tokens;
    var v :| v in tokens && v.id == (p.id, u.id).1;
  }

  lemma LoadedTokenWasStored(t: Tables, p: ProcessInstance, tokens: seq<Token>, u: Token)
    requires Storable(p) && ListsTokens(Saved(t, p).tokens, p.id, tokens) && u in tokens
    ensures exists v :: v in p.tokens && u == v.(updatedAt := None)
  {
    SavedRow(t, p, (p.id, u.id));
    var v :| v in p.tokens && v.id == u.id;
    TokenDecodes(v);
  }

  function IdSet(tokens: seq<Token>): set<TokenId> {
    set t | t in tokens :: t.id
  }

  lemma {:induction false} CountIds(tokens: seq<Token>)
    requires DistinctIds(tokens)
    ensures |IdSet(tokens)| == |tokens|
  {
    if tokens != [] {
      CountIds(tokens[1..]);
      assert tokens == [tokens[0]] + tokens[1..];
      assert IdSet(tokens) == {tokens[0].id} + IdSet(tokens[1..]);
      forall t | t in tokens[1..] ensures t.id != tokens[0].id {
        var i :| 0 <= i < |tokens[1..]| && tokens[1..][i] == t;
        assert tokens[i + 1] == t;
      }
    }
  }

  lemma SameLength(a: seq<Token>, b: seq<Token>)
    requires DistinctIds(a) && DistinctIds(b)
    requires forall t :: t in a ==> t.(updatedAt := None) in b
    requires forall u :: u in b ==> exists t :: t in a && u == t.(updatedAt := None)
    ensures |a| == |b|
  {
    CountIds(a);
    CountIds(b);
    forall id ensures id in IdSet(a) <==> id in IdSet(b) {
      if id in IdSet(a) {
        var t :| t in a && t.id == id;
        assert t.(updatedAt := None) in b;
      }
      if id in IdSet(b) {
        var u :| u in b && u.id == id;
        var t :| t in a && u == t.(updatedAt := None);
      }
    }
    assert IdSet(a) == IdSet(b);
  }

  // ---------- Compare and swap ----------

  /** The row exists at the expected version. */
  predicate AtVersion(tokens: map<Key, TokenRow>, k: Key, version: int) {
    k in tokens && tokens[k].version == version
  }

  datatype TokenStep = Cas(token: Token) | Claim(id: TokenId, expected: nat)

  function StepKey(inst: InstanceId, s: TokenStep): Key {
    (inst, match s case Cas(t) => t.id case Claim(id, _) => id)
  }

  function Expected(s: TokenStep): nat {
    match s case Cas(t) => t.version case Claim(_, v) => v
  }

  predicate FinishedText(status: string) {
    status == "Completed" || status == "Terminated"
  }

  /** The statement succeeds. A claim takes any token that is not finished; the version must not overflow. */
  predicate Swaps(tokens: map<Key, TokenRow>, inst: InstanceId, s: TokenStep) {
    var k := StepKey(inst, s);
    && AtVersion(tokens, k, Expected(s)) && Expected(s) + 1 < I32_LIMIT
    && match s
       case Cas(t) => t.attempt < I32_LIMIT
       case Claim(_, _) => !FinishedText(tokens[k].status)
  }

  /** The swapped row: the node never changes, the version goes up by one. */
  function SwapRow(r: TokenRow, s: TokenStep, now: int): TokenRow {
    match s
    case Cas(t) =>
      r.(status := TokenStatusText(t.status), mode := TokenModeText(t.mode), version := r.version + 1,
         attempt := t.attempt, parallelGroupId := t.parallelGroupId, updatedAt := Some(now))
    case Claim(_, _) => r.(status := TokenStatusText(Executing), version := r.version + 1, updatedAt := Some(now))
  }

  function Swap(tokens: map<Key, TokenRow>, inst: InstanceId, s: TokenStep, now: int): map<Key, TokenRow> {
    if Swaps(tokens, inst, s) then tokens[StepKey(inst, s) := SwapRow(tokens[StepKey(inst, s)], s, now)] else tokens
  }

  /** What a successful swap or claim leaves to be loaded: the token written, at the next version, on the node it was
      on; or the token read, executing. */
  lemma SwappedLoads(tokens: map<Key, TokenRow>, inst: InstanceId, s: TokenStep, now: int, u: Token)
    requires Swaps(tokens, inst, s)
    requires TokenOfRow(StepKey(inst, s).1, tokens[StepKey(inst, s)]) == Some(u)
    ensures var loaded := TokenOfRow(u.id, Swap(tokens, inst, s, now)[(inst, u.id)]);
            match s
            case Cas(t) => loaded == Some(t.(nodeId := u.nodeId, version := u.version + 1, updatedAt := Some(now)))
            case Claim(_, _) =>
              loaded == Some(u.(status := Executing, version := u.version + 1, updatedAt := Some(now)))
  {
    match s
    case Cas(t) =>
      CodecsRoundTrip(TokenStatusText(t.status), Running, t.status, t.mode);
      CodecsRoundTrip(TokenModeText(t.mode), Running, t.status, t.mode);
    case Claim(_, _) => CodecsRoundTrip("Executing", Running, Executing, Forward);
  }

  /** It succeeds exactly on a token that is there at the version read, which must fit when raised, and a claim on
      one that has not ended; and it touches no other token. */
  lemma SwapsExactly(tokens: map<Key, TokenRow>, inst: InstanceId, s: TokenStep, now: int, k: Key)
    ensures k != StepKey(inst, s) ==>
              (k in Swap(tokens, inst, s, now) <==> k in tokens)
              && (k in tokens ==> Swap(tokens, inst, s, now)[k] == tokens[k])
    ensures k == StepKey(inst, s) && k in tokens && TokenOfRow(k.1, tokens[k]).Some? ==>
              var u := TokenOfRow(k.1, tokens[k]).value;
              Swaps(tokens, inst, s) <==>
                match s
                case Cas(t) => u.version == t.version && t.version < 2147483647 && t.attempt <= 2147483647
                case Claim(_, v) =>
                  && u.version == v && v < 2147483647
                  && u.status != TokenStatus.Completed && u.status != TokenStatus.Terminated
    ensures k == StepKey(inst, s) && k !in tokens ==> !Swaps(tokens, inst, s)
  {
    if k in tokens && TokenOfRow(k.1, tokens[k]).Some? {
      CodecsRoundTrip(tokens[k].status, Running, TokenOfRow(k.1, tokens[k]).value.status, Forward);
    }
  }

  /** What may happen to the token table: attempts on single tokens, and saves of whole instances. */
  datatype TableStep = Attempt(inst: InstanceId, s: TokenStep) | SaveOf(p: ProcessInstance)

  /** The token table once p is saved, if it can be. */
  function TokensSaved(tokens: map<Key, TokenRow>, p: ProcessInstance): map<Key, TokenRow> {
    if Storable(p) then Saved(Tables(map[], tokens), p).tokens else tokens
  }

  function TokensAfter(tokens: map<Key, TokenRow>, x: TableStep, now: int): map<Key, TokenRow> {
    match x
    case Attempt(inst, s) => Swap(tokens, inst, s, now)
    case SaveOf(p) => TokensSaved(tokens, p)
  }

  function TokensAfterAll(tokens: map<Key, TokenRow>, steps: seq<TableStep>, now: int): map<Key, TokenRow>
    decreases |steps|
  {
    if steps == [] then tokens else TokensAfterAll(TokensAfter(tokens, steps[0], now), steps[1..], now)
  }

  /** The step saves a snapshot that holds the token at version v or an older one. */
  ghost predicate Revives(x: TableStep, k: Key, v: nat) {
    x.SaveOf? && Storable(x.p) && x.p.id == k.0 && exists u :: u in x.p.tokens && u.id == k.1 && u.version <= v
  }

  /** The token, if it is there, is past version v. */
  predicate Past(tokens: map<Key, TokenRow>, k: Key, v: nat) {
    k in tokens ==> tokens[k].version > v
  }

  lemma StepKeepsPast(tokens: map<Key, TokenRow>, x: TableStep, k: Key, v: nat, now: int)
    requires Past(tokens, k, v) && !Revives(x, k, v)
    ensures Past(TokensAfter(tokens, x, now), k, v)
  {
    if x.SaveOf? && Storable(x.p) {
      var t := Tables(map[], tokens);
      if k.0 == x.p.id { SavedRow(t, x.p, k); } else { SaveKeepsOthers(t, x.p, k); }
    }
  }

  lemma {:induction false} RunKeepsPast(tokens: map<Key, TokenRow>, steps: seq<TableStep>, k: Key, v: nat, now: int)
    requires Past(tokens, k, v) && forall x :: x in steps ==> !Revives(x, k, v)
    ensures Past(TokensAfterAll(tokens, steps, now), k, v)
    decreases |steps|
  {
    if steps != [] {
      assert steps[0] in steps;
      StepKeepsPast(tokens, steps[0], k, v, now);
      RunKeepsPast(TokensAfter(tokens, steps[0], now), steps[1..], k, v, now);
    }
  }

  /** Of all attempts that read the same version of a token, one succeeds: after a success, no attempt at that
      version or an older one succeeds at any later point, unless a snapshot read before it is saved in between. */
  lemma OneSwapPerVersion(tokens: map<Key, TokenRow>, inst: InstanceId, first: TokenStep, steps: seq<TableStep>,
                          late: TokenStep, now: int)
    requires Swaps(tokens, inst, first)
    requires forall x :: x in steps ==> !Revives(x, StepKey(inst, first), Expected(first))
    requires StepKey(inst, late) == StepKey(inst, first) && Expected(late) <= Expected(first)
    ensures !Swaps(TokensAfterAll(Swap(tokens, inst, first, now), steps, now), inst, late)
  {
    RunKeepsPast(Swap(tokens, inst, first, now), steps, StepKey(inst, first), Expected(first), now);
  }

  /** The token in the snapshot answers the attempt. */
  predicate Answers(u: Token, inst: InstanceId, s: TokenStep) {
    && u.id == StepKey(inst, s).1 && u.version == Expected(s) && Expected(s) + 1 < I32_LIMIT
    && match s
       case Cas(t) => t.attempt < I32_LIMIT
       case Claim(_, _) => !Terminal(u.status)
  }

  /** And that exception is real: right after a save, an attempt succeeds if and only if the snapshot holds the
      token at the expected version, whatever succeeded before. */
  lemma SaveRevivesExactly(tokens: map<Key, TokenRow>, p: ProcessInstance, late: TokenStep)
    requires Storable(p)
    ensures Swaps(TokensSaved(tokens, p), p.id, late) <==> exists u :: u in p.tokens && Answers(u, p.id, late)
  {
    var k := StepKey(p.id, late);
    SavedRow(Tables(map[], tokens), p, k);
    if k in TokensSaved(tokens, p) {
      var u :| u in p.tokens && u.id == k.1;
      assert TokensSaved(tokens, p)[k] == RowOfToken(u);
      forall v | v in p.tokens && v.id == k.1 ensures v == u { SameIdSame(p.tokens, u, v); }
      CodecsRoundTrip("Completed", Running, u.status, Forward);
      CodecsRoundTrip("Terminated", Running, u.status, Forward);
    }
  }

  lemma SameIdSame(tokens: seq<Token>, u: Token, v: Token)
    requires DistinctIds(tokens) && u in tokens && v in tokens && u.id == v.id
    ensures u == v
  {
    var i :| 0 <= i < |tokens| && tokens[i] == u;
    var j :| 0 <= j < |tokens| && tokens[j] == v;
  }

  // ---------- The transaction's token loop ----------

  /** The insert loop so far: i rows are in, all of them fitting and distinct. */
  ghost predicate InsertedUpTo(before: map<Key, TokenRow>, id: InstanceId, tokens: seq<Token>, i: nat,
                               rows: map<Key, TokenRow>)
  {
    && i <= |tokens|
    && rows == OtherTokens(before, id) + TokenRows(id, tokens[..i])
    && DistinctIds(tokens[..i]) && (forall t :: t in tokens[..i] ==> TokenFits(t))
  }

  /** A key is taken exactly when an earlier token has the id. */
  lemma KeyTaken(before: map<Key, TokenRow>, id: InstanceId, tokens: seq<Token>, i: nat, rows: map<Key, TokenRow>)
    requires InsertedUpTo(before, id, tokens, i, rows) && i < |tokens|
    ensures (id, tokens[i].id) in rows <==> exists j :: 0 <= j < i && tokens[j].id == tokens[i].id
  {
    var k := (id, tokens[i].id);
    TokenRowsAt(id, tokens[..i], k);
    if k in rows {
      var u :| u in tokens[..i] && k == (id, u.id);
      var j :| 0 <= j < i && tokens[..i][j] == u;
      assert tokens[j].id == tokens[i].id;
    }
    if j :| 0 <= j < i && tokens[j].id == tokens[i].id { assert tokens[j] in tokens[..i]; }
  }

  lemma InsertNext(before: map<Key, TokenRow>, id: InstanceId, tokens: seq<Token>, i: nat, rows: map<Key, TokenRow>)
    requires InsertedUpTo(before, id, tokens, i, rows) && i < |tokens|
    ensures (id, tokens[i].id) in rows ==> !DistinctIds(tokens)
    ensures (id, tokens[i].id) !in rows && TokenFits(tokens[i]) ==>
              InsertedUpTo(before, id, tokens, i + 1, rows[(id, tokens[i].id) := RowOfToken(tokens[i])])
  {
    KeyTaken(before, id, tokens, i, rows);
    assert tokens[..i + 1] == tokens[..i] + [tokens[i]];
    assert tokens[..i + 1][..i] == tokens[..i];
  }

  /** Delete the tokens of the instance, insert the new ones one by one, stop at the first that is refused. */
  method SaveTokens(before: map<Key, TokenRow>, id: InstanceId, tokens: seq<Token>)
    returns (r: Result<map<Key, TokenRow>, StoreError>)
    ensures r.Success? <==> DistinctIds(tokens) && forall t :: t in tokens ==> TokenFits(t)
    ensures r.Success? ==> r.value == OtherTokens(before, id) + TokenRows(id, tokens)
  {
    var rows := map k | k in before && k.0 != id :: before[k];
    for i := 0 to |tokens|
      invariant InsertedUpTo(before, id, tokens, i, rows)
    {
      var t := tokens[i];
      InsertNext(before, id, tokens, i, rows);
      if t.version >= I32_LIMIT || t.attempt >= I32_LIMIT {
        assert t in tokens && !TokenFits(t);
        return Failure(OutOfRange);
      }
      if (id, t.id) in rows {
        return Failure(DuplicateToken(t.id));
      }
      rows := rows[(id, t.id) := TokenRow(t.nodeId, TokenStatusText(t.status), TokenModeText(t.mode), t.version,
        t.attempt, t.parallelGroupId, None)];
    }
    assert tokens[..|tokens|] == tokens;
    r := Success(rows);
  }

  /** A save leaves other instances and their tokens untouched. */
  lemma SaveKeepsOthers(t: Tables, p: ProcessInstance, k: Key)
    requires k.0 != p.id && Storable(p)
    ensures k in Saved(t, p).tokens <==> k in t.tokens
    ensures k in t.tokens ==> Saved(t, p).tokens[k] == t.tokens[k]
    ensures k.0 in Saved(t, p).instances <==> k.0 in t.instances
    ensures k.0 in t.instances ==> Saved(t, p).instances[k.0] == t.instances[k.0]
  {
    TokenRowsAt(p.id, p.tokens, k);
  }

  /** What can be saved, in numbers. */
  lemma StorableExactly(p: ProcessInstance)
    ensures Storable(p) <==>
            && p.version <= 2147483647
            && (forall t :: t in p.tokens ==> t.version <= 2147483647 && t.attempt <= 2147483647)
            && (forall i, j :: 0 <= i < j < |p.tokens| ==> p.tokens[i].id != p.tokens[j].id)
  {
  }

  // ---------- The store ----------

  class Database {
    var instances: map<InstanceId, InstanceRow>
    var tokens: map<Key, TokenRow>
    var now: int

    constructor (now: int)
      ensures instances == map[] && tokens == map[] && this.now == now
    {
      instances, tokens, this.now := map[], map[], now;
    }

    function View(): Tables
      reads this
    {
      Tables(instances, tokens)
    }

    /** One transaction: upsert the instance, then replace its tokens. A version or attempt that does not fit,
        or a repeated id, aborts it part-way and leaves the whole database as it was. */
    method Save(p: ProcessInstance) returns (r: Result<(), StoreError>)
      modifies this
      ensures r.Success? <==> Storable(p)
      ensures View() == if Storable(p) then Saved(old(View()), p) else old(View())
      ensures now == old(now)
    {
      if p.version >= I32_LIMIT {
        return Failure(OutOfRange);
      }
      var instances' := instances[p.id := InstanceRow(p.processDefId, p.tenantId, p.variables,
        InstanceStateText(p.state), p.version)];
      var tokens' := SaveTokens(tokens, p.id, p.tokens);
      if tokens'.Failure? {
        return Failure(tokens'.error);
      }
      instances, tokens := instances', tokens'.value;
      r := Success(());
    }

    /** The tokens of an instance, in whatever order the rows come. */
    method LoadTokens(id: InstanceId) returns (r: Result<seq<Token>, StoreError>)
      ensures r.Success? <==> forall k :: k in tokens && k.0 == id ==> TokenOfRow(k.1, tokens[k]).Some?
      ensures r.Success? ==> ListsTokens(tokens, id, r.value)
    {
      var keys := set k | k in tokens && k.0 == id;
      var found: seq<Token> := [];
      var rest := keys;
      while rest != {}
        invariant rest <= keys && DistinctIds(found)
        invariant forall t :: t in found ==>
                    (id, t.id) in keys - rest && TokenOfRow(t.id, tokens[(id, t.id)]) == Some(t)
        invariant forall k :: k in keys - rest ==> exists t :: t in found && t.id == k.1
      {
        var k :| k in rest;
        var t := TokenOfRow(k.1, tokens[k]);
        if t.None? {
          return Failure(Undecodable);
        }
        assert forall u :: u in found ==> u.id != k.1;
        ghost var before := found;
        found := found + [t.value];
        rest := rest - {k};
        forall j | j in keys - rest ensures exists u :: u in found && u.id == j.1 {
          if j == k {
            assert t.value in found;
          } else {
            var u :| u in before && u.id == j.1;
            assert u in found;
          }
        }
      }
      r := Success(found);
    }

    method Load(id: InstanceId) returns (r: Result<Option<ProcessInstance>, StoreError>)
      ensures Loads(View(), id, r)
    {
      if id !in instances {
        return Success(None);
      }
      var row := instances[id];
      var state := InstanceStateOf(row.state);
      if state.None? {
        return Failure(Undecodable);
      }
      var ts := LoadTokens(id);
      if ts.Failure? {
        return Failure(ts.error);
      }
      if row.version < 0 {
        return Failure(Undecodable);
      }
      r := Success(Some(ProcessInstance(id, row.processDefId, row.tenantId, ts.value, row.variables, state.value,
        row.version)));
    }

    method UpdateTokenCas(inst: InstanceId, token: Token) returns (r: Result<bool, StoreError>)
      modifies this
      ensures tokens == Swap(old(tokens), inst, Cas(token), now) && instances == old(instances) && now == old(now)
      ensures r == Success(true) <==> Swaps(old(tokens), inst, Cas(token))
      ensures r.Failure? <==>
                || !TokenFits(token)
                || (AtVersion(old(tokens), (inst, token.id), token.version) && token.version + 1 >= I32_LIMIT)
    {
      if token.version >= I32_LIMIT || token.attempt >= I32_LIMIT {
        return Failure(OutOfRange);
      }
      var k := (inst, token.id);
      if k !in tokens || tokens[k].version != token.version {
        return Success(false);
      }
      if tokens[k].version + 1 >= I32_LIMIT {
        return Failure(OutOfRange);
      }
      tokens := tokens[k := tokens[k].(
        status := TokenStatusText(token.status), mode := TokenModeText(token.mode), version := tokens[k].version + 1,
        attempt := token.attempt, parallelGroupId := token.parallelGroupId, updatedAt := Some(now))];
      r := Success(true);
    }

    method ClaimToken(inst: InstanceId, id: TokenId, version: nat) returns (r: Result<bool, StoreError>)
      modifies this
      ensures tokens == Swap(old(tokens), inst, Claim(id, version), now) && instances == old(instances)
              && now == old(now)
      ensures r == Success(true) <==> Swaps(old(tokens), inst, Claim(id, version))
      ensures r.Failure? <==>
                || version >= I32_LIMIT
                || (version + 1 >= I32_LIMIT && AtVersion(old(tokens), (inst, id), version)
                    && !FinishedText(old(tokens)[(inst, id)].status))
    {
      if version >= I32_LIMIT {
        return Failure(OutOfRange);
      }
      var k := (inst, id);
      if k !in tokens || tokens[k].version != version || tokens[k].status == "Completed" ||
        tokens[k].status == "Terminated" {
        return Success(false);
      }
      if tokens[k].version + 1 >= I32_LIMIT {
        return Failure(OutOfRange);
      }
      tokens := tokens[k := tokens[k].(status := "Executing", version := tokens[k].version + 1,
        updatedAt := Some(now))];
      r := Success(true);
    }
  }
}
