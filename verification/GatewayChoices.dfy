/**
 Gateway choices (routes/process/mod.rs): what a user must supply before a token can leave a node.
 The worklist search follows exclusive gateways only; it is proved exact on every graph, cycles and
 dangling edges included, against a specification by walks.
 */
module GatewayChoices {
  import opened Wrappers
  import opened Text
  import opened ProcessModel
  import opened GatewayConditions

  datatype GatewayChoice = GatewayChoice(key: string, values: seq<string>)

  datatype SearchError =
    | NodeNotFound(id: NodeId)
    | Unparseable(gateway: NodeId, edge: Edge)

  // ---------- Specification ----------

  predicate IsGateway(def: Definition, id: NodeId) {
    id in def.nodes && def.nodes[id].nodeType.ExclusiveGateway?
  }

  /** A condition the search has to understand. */
  predicate Conditional(e: Edge) {
    e.condition.Some? && !e.condition.value.Default?
  }

  predicate Malformed(e: Edge) {
    Conditional(e) && ParseEdgeCondition(e.condition.value).None?
  }

  predicate AsksPair(e: Edge, key: string, value: string) {
    Conditional(e) && ParseEdgeCondition(e.condition.value) == Some((key, value))
  }

  predicate PointsTo(es: seq<Edge>, t: NodeId) {
    exists e :: e in es && e.target == t
  }

  /** The i-th id of w is a gateway with an edge to the next one. */
  ghost predicate Hop(def: Definition, w: seq<NodeId>, i: nat)
    requires i + 1 < |w|
  {
    IsGateway(def, w[i]) && PointsTo(def.nodes[w[i]].edges, w[i + 1])
  }

  /** A walk from an edge of `from` through exclusive gateways to its last id. */
  ghost predicate GatewayWalk(def: Definition, from: NodeId, w: seq<NodeId>) {
    && from in def.nodes && w != []
    && PointsTo(def.nodes[from].edges, w[0])
    && forall i :: 0 <= i < |w| - 1 ==> Hop(def, w, i)
  }

  ghost predicate Reached(def: Definition, from: NodeId, id: NodeId) {
    exists w :: GatewayWalk(def, from, w) && w[|w| - 1] == id
  }

  /** The edge leaves a gateway that a token on `from` can come to through gateways alone. */
  ghost predicate Ahead(def: Definition, from: NodeId, g: NodeId, e: Edge) {
    Reached(def, from, g) && IsGateway(def, g) && e in def.nodes[g].edges
  }

  ghost predicate Asks(def: Definition, from: NodeId, key: string, value: string) {
    exists g, e :: Ahead(def, from, g, e) && AsksPair(e, key, value)
  }

  ghost predicate Broken(def: Definition, from: NodeId) {
    exists g, e :: Ahead(def, from, g, e) && Malformed(e)
  }

  /** The choices list the pairs of P: ascending keys, each with ascending values, none empty. */
  ghost predicate Lists(cs: seq<GatewayChoice>, P: (string, string) -> bool) {
    && (forall i, j :: 0 <= i < j < |cs| ==> StrLess(cs[i].key, cs[j].key))
    && (forall i :: 0 <= i < |cs| ==> Ascending(cs[i].values) && cs[i].values != [])
    && (forall i, v :: 0 <= i < |cs| && v in cs[i].values ==> P(cs[i].key, v))
    && (forall k, v :: P(k, v) ==> exists i :: 0 <= i < |cs| && cs[i].key == k && v in cs[i].values)
  }

  /** The exact answer of the search. */
  ghost predicate Answers(def: Definition, from: NodeId, r: Result<Option<seq<GatewayChoice>>, SearchError>) {
    match r
    case Failure(NodeNotFound(id)) => id == from && from !in def.nodes
    case Failure(Unparseable(g, e)) => from in def.nodes && Ahead(def, from, g, e) && Malformed(e)
    case Success(None) => from in def.nodes && !Broken(def, from) && forall k, v :: !Asks(def, from, k, v)
    case Success(Some(cs)) =>
      from in def.nodes && !Broken(def, from) && cs != [] && Lists(cs, (k, v) => Asks(def, from, k, v))
  }

  // ---------- Scanning one gateway ----------

  predicate Holds(grouped: map<string, seq<string>>, k: string, v: string) {
    k in grouped && v in grouped[k]
  }

  predicate AskedBy(seen: set<Edge>, k: string, v: string) {
    exists e :: e in seen && AsksPair(e, k, v)
  }

  /** The groups hold exactly the pairs asked by the edges seen so far. */
  ghost predicate Collected(seen: set<Edge>, grouped: map<string, seq<string>>) {
    && (forall k :: k in grouped ==> grouped[k] != [])
    && (forall k, v :: Holds(grouped, k, v) <==> AskedBy(seen, k, v))
  }

  function EdgeSet(es: seq<Edge>): set<Edge> {
    set e | e in es
  }

  function Targets(es: seq<Edge>): (r: seq<NodeId>)
    ensures |r| == |es| && forall i :: 0 <= i < |es| ==> r[i] == es[i].target
  {
    seq(|es|, i requires 0 <= i < |es| => es[i].target)
  }

  lemma TargetsArePointedTo(es: seq<Edge>)
    ensures forall t :: t in Targets(es) <==> PointsTo(es, t)
  {
    forall t ensures t in Targets(es) <==> PointsTo(es, t) {
      if t in Targets(es) {
        var i :| 0 <= i < |es| && Targets(es)[i] == t;
        assert es[i] in es;
      }
      if PointsTo(es, t) {
        var e :| e in es && e.target == t;
        var i :| 0 <= i < |es| && es[i] == e;
        assert Targets(es)[i] == t;
      }
    }
  }

  lemma AskedByOneMore(seen: set<Edge>, e: Edge, k: string, v: string)
    ensures AskedBy(seen + {e}, k, v) <==> AskedBy(seen, k, v) || AsksPair(e, k, v)
  {
    if AskedBy(seen, k, v) {
      var f :| f in seen && AsksPair(f, k, v);
      assert f in seen + {e};
    }
    if AsksPair(e, k, v) { assert e in seen + {e}; }
  }

  function AddPair(grouped: map<string, seq<string>>, key: string, value: string): map<string, seq<string>> {
    grouped[key := (if key in grouped then grouped[key] else []) + [value]]
  }

  lemma CollectOne(seen: set<Edge>, grouped: map<string, seq<string>>, e: Edge)
    requires Collected(seen, grouped) && !Malformed(e)
    ensures Conditional(e) ==>
              var (key, value) := ParseEdgeCondition(e.condition.value).value;
              Collected(seen + {e}, AddPair(grouped, key, value))
    ensures !Conditional(e) ==> Collected(seen + {e}, grouped)
  {
    forall k, v ensures AskedBy(seen + {e}, k, v) <==> AskedBy(seen, k, v) || AsksPair(e, k, v) {
      AskedByOneMore(seen, e, k, v);
    }
    if Conditional(e) {
      var (key, value) := ParseEdgeCondition(e.condition.value).value;
      var now := AddPair(grouped, key, value);
      forall k, v ensures Holds(now, k, v) <==> AskedBy(seen + {e}, k, v) {
        assert Holds(grouped, k, v) <==> AskedBy(seen, k, v);
        assert now[key][|now[key]| - 1] == value;
      }
    }
  }

  /** Adds the pairs of a gateway's edges to the groups and its targets to the stack, or stops at the
      first condition that does not parse. */
  method ScanEdges(es: seq<Edge>, before: map<string, seq<string>>, below: seq<NodeId>, ghost seen: set<Edge>)
    returns (grouped: map<string, seq<string>>, stack: seq<NodeId>, bad: Option<Edge>)
    requires Collected(seen, before)
    ensures bad.Some? ==> bad.value in es && Malformed(bad.value)
    ensures bad.None? ==> forall e :: e in es ==> !Malformed(e)
    ensures bad.None? ==> Collected(seen + EdgeSet(es), grouped) && stack == below + Targets(es)
  {
    grouped, stack, bad := before, below, None;
    assert seen + EdgeSet(es[..0]) == seen;
    for i := 0 to |es|
      invariant forall e :: e in es[..i] ==> !Malformed(e)
      invariant Collected(seen + EdgeSet(es[..i]), grouped)
      invariant stack == below + Targets(es)[..i]
      invariant bad.None?
    {
      var e := es[i];
      ghost var all := seen + EdgeSet(es[..i]);
      if Malformed(e) {
        bad := Some(e);
        return;
      }
      CollectOne(all, grouped, e);
      if Conditional(e) {
        var (key, value) := ParseEdgeCondition(e.condition.value).value;
        grouped := AddPair(grouped, key, value);
      }
      stack := stack + [e.target];
      assert es[..i + 1] == es[..i] + [e];
      assert all + {e} == seen + EdgeSet(es[..i + 1]);
      assert Targets(es)[..i + 1] == Targets(es)[..i] + [e.target];
    }
    assert es[..|es|] == es && Targets(es)[..|es|] == Targets(es);
  }

  // ---------- The worklist ----------

  ghost function Elements(stack: seq<NodeId>): set<NodeId> {
    set t | t in stack
  }

  /** Everything found so far, visited or waiting on the stack, is on a gateway walk. */
  ghost predicate Sound(def: Definition, from: NodeId, known: set<NodeId>, seen: set<Edge>) {
    && (forall id :: id in known ==> Reached(def, from, id))
    && (forall e :: e in seen ==> !Malformed(e) && exists g :: Ahead(def, from, g, e))
  }

  /** Every edge of an explored gateway has been seen and leads to a known id. */
  ghost predicate Explored(def: Definition, known: set<NodeId>, seen: set<Edge>, g: NodeId) {
    IsGateway(def, g) ==>
      && EdgeSet(def.nodes[g].edges) <= seen
      && (forall t :: PointsTo(def.nodes[g].edges, t) ==> t in known)
  }

  ghost predicate Closed(def: Definition, from: NodeId, visited: set<NodeId>, known: set<NodeId>, seen: set<Edge>)
    requires from in def.nodes
  {
    && (forall t :: PointsTo(def.nodes[from].edges, t) ==> t in known)
    && (forall g :: g in visited ==> Explored(def, known, seen, g))
  }

  lemma ReachedStart(def: Definition, from: NodeId, t: NodeId)
    requires from in def.nodes && PointsTo(def.nodes[from].edges, t)
    ensures Reached(def, from, t)
  {
    assert GatewayWalk(def, from, [t]);
    assert [t][|[t]| - 1] == t;
  }

  lemma ReachedOn(def: Definition, from: NodeId, g: NodeId, t: NodeId)
    requires Reached(def, from, g) && IsGateway(def, g) && PointsTo(def.nodes[g].edges, t)
    ensures Reached(def, from, t)
  {
    var w :| GatewayWalk(def, from, w) && w[|w| - 1] == g;
    var u := w + [t];
    assert forall i :: 0 <= i < |w| ==> u[i] == w[i];
    forall i | 0 <= i < |u| - 1 ensures Hop(def, u, i) {
      if i < |w| - 1 { assert Hop(def, w, i); }
    }
    assert GatewayWalk(def, from, u) && u[|u| - 1] == t;
  }

  /** Once the stack is empty, every reached id has been visited. */
  lemma {:induction false} WalksAreVisited(def: Definition, from: NodeId, w: seq<NodeId>, visited: set<NodeId>,
                                           seen: set<Edge>)
    requires GatewayWalk(def, from, w) && Closed(def, from, visited, visited, seen)
    ensures w[|w| - 1] in visited
  {
    if |w| > 1 {
      var u := w[..|w| - 1];
      assert forall i :: 0 <= i < |u| ==> u[i] == w[i];
      forall i | 0 <= i < |u| - 1 ensures Hop(def, u, i) { assert Hop(def, w, i); }
      WalksAreVisited(def, from, u, visited, seen);
      assert Explored(def, visited, seen, w[|w| - 2]);
      assert Hop(def, w, |w| - 2);
    }
  }

  function AllTargets(def: Definition): set<NodeId> {
    set k, e | k in def.nodes && e in def.nodes[k].edges :: e.target
  }

  lemma TargetsAreKnown(def: Definition, k: NodeId)
    requires k in def.nodes
    ensures forall t :: t in Targets(def.nodes[k].edges) ==> t in AllTargets(def)
  {
    var es := def.nodes[k].edges;
    forall t | t in Targets(es) ensures t in AllTargets(def) {
      var i :| 0 <= i < |es| && Targets(es)[i] == t;
      assert es[i] in es;
    }
  }

  /** A known gateway has been scanned and its targets stacked. */
  lemma ScanKeepsInvariant(def: Definition, from: NodeId, visited: set<NodeId>, known: set<NodeId>, seen: set<Edge>,
                           id: NodeId)
    requires from in def.nodes && id in known
    requires Sound(def, from, known, seen) && Closed(def, from, visited, known, seen)
    requires IsGateway(def, id) && forall e :: e in def.nodes[id].edges ==> !Malformed(e)
    ensures var all, now := known + Elements(Targets(def.nodes[id].edges)), seen + EdgeSet(def.nodes[id].edges);
            Sound(def, from, all, now) && Closed(def, from, visited + {id}, all, now)
  {
    var es := def.nodes[id].edges;
    var all, now := known + Elements(Targets(es)), seen + EdgeSet(es);
    TargetsArePointedTo(es);
    forall t | t in all ensures Reached(def, from, t) {
      if t !in known { ReachedOn(def, from, id, t); }
    }
    forall e | e in now ensures !Malformed(e) && exists g :: Ahead(def, from, g, e) {
      if e !in seen { assert Ahead(def, from, id, e); }
    }
    forall g | g in visited + {id} ensures Explored(def, all, now, g) {
      if g != id { assert Explored(def, known, seen, g); }
    }
  }

  /** The state of the search between two pops. */
  ghost predicate Searching(def: Definition, from: NodeId, visited: set<NodeId>, stack: seq<NodeId>, seen: set<Edge>)
    requires from in def.nodes
  {
    && Sound(def, from, visited + Elements(stack), seen)
    && Closed(def, from, visited, visited + Elements(stack), seen)
    && Elements(stack) <= AllTargets(def)
  }

  /** Scans a gateway that was just popped and visited. */
  method ScanGateway(def: Definition, from: NodeId, ghost visited: set<NodeId>, stack: seq<NodeId>,
                     ghost seen: set<Edge>,
                     before: map<string, seq<string>>, id: NodeId)
    returns (grouped: map<string, seq<string>>, after: seq<NodeId>, bad: Option<Edge>)
    requires from in def.nodes && id in def.nodes && IsGateway(def, id)
    requires Searching(def, from, visited, stack + [id], seen) && Collected(seen, before)
    ensures bad.Some? ==> Ahead(def, from, id, bad.value) && Malformed(bad.value)
    ensures bad.None? ==>
              && Searching(def, from, visited + {id}, after, seen + EdgeSet(def.nodes[id].edges))
              && Collected(seen + EdgeSet(def.nodes[id].edges), grouped)
  {
    TopIsReached(def, from, visited, stack, seen, id);
    grouped, after, bad := ScanEdges(def.nodes[id].edges, before, stack, seen);
    if bad.None? {
      ScanKeepsSearching(def, from, visited, stack, seen, id);
    }
  }

  lemma TopIsReached(def: Definition, from: NodeId, visited: set<NodeId>, stack: seq<NodeId>, seen: set<Edge>,
                     id: NodeId)
    requires from in def.nodes && Searching(def, from, visited, stack + [id], seen)
    ensures Reached(def, from, id) && id in AllTargets(def)
  {
    assert id in stack + [id];
    assert id in visited + Elements(stack + [id]);
  }

  lemma ScanKeepsSearching(def: Definition, from: NodeId, visited: set<NodeId>, stack: seq<NodeId>, seen: set<Edge>,
                           id: NodeId)
    requires from in def.nodes && Searching(def, from, visited, stack + [id], seen)
    requires IsGateway(def, id) && forall e :: e in def.nodes[id].edges ==> !Malformed(e)
    ensures Searching(def, from, visited + {id}, stack + Targets(def.nodes[id].edges),
            seen + EdgeSet(def.nodes[id].edges))
  {
    ElementsAfterScan(visited, stack, id, Targets(def.nodes[id].edges));
    ScanKeepsInvariant(def, from, visited, visited + Elements(stack + [id]), seen, id);
    ScanKeepsBounds(def, stack, id);
  }

  lemma ElementsAfterScan(visited: set<NodeId>, stack: seq<NodeId>, id: NodeId, ts: seq<NodeId>)
    ensures id in visited + Elements(stack + [id]) && Elements(stack) <= Elements(stack + [id])
    ensures visited + {id} + Elements(stack + ts) == visited + Elements(stack + [id]) + Elements(ts)
  {
    assert id in stack + [id];
  }

  /** An id that needs no scan is explored as it stands. */
  lemma SkipKeepsClosed(def: Definition, from: NodeId, visited: set<NodeId>, known: set<NodeId>, seen: set<Edge>,
                        id: NodeId)
    requires from in def.nodes && Closed(def, from, visited, known, seen) && id in known
    requires id in visited || !IsGateway(def, id)
    ensures Closed(def, from, visited + {id}, known, seen)
  {
  }

  lemma ElementsAfterSkip(visited: set<NodeId>, stack: seq<NodeId>, id: NodeId)
    ensures visited + {id} + Elements(stack) == visited + Elements(stack + [id])
            && Elements(stack) <= Elements(stack + [id])
  {
    assert id in stack + [id];
  }

  lemma SkipKeepsInvariant(def: Definition, from: NodeId, visited: set<NodeId>, stack: seq<NodeId>, seen: set<Edge>,
                           id: NodeId)
    requires from in def.nodes && Searching(def, from, visited, stack + [id], seen)
    requires id in visited || !IsGateway(def, id)
    ensures Searching(def, from, visited + {id}, stack, seen)
  {
    ElementsAfterSkip(visited, stack, id);
    SkipKeepsClosed(def, from, visited, visited + Elements(stack + [id]), seen, id);
  }

  /** One turn of the loop: pop, skip what was seen or is no gateway, otherwise scan its edges. */
  method Turn(def: Definition, from: NodeId, visited: set<NodeId>, stack: seq<NodeId>, ghost seen: set<Edge>,
              grouped: map<string, seq<string>>)
    returns (visited': set<NodeId>, stack': seq<NodeId>, ghost seen': set<Edge>,
             grouped': map<string, seq<string>>, bad: Option<SearchError>)
    requires from in def.nodes && stack != []
    requires Searching(def, from, visited, stack, seen) && Collected(seen, grouped)
    ensures bad.Some? ==> Answers(def, from, Failure(bad.value))
    ensures bad.None? ==> Searching(def, from, visited', stack', seen') && Collected(seen', grouped')
    ensures bad.None? ==>
              || AllTargets(def) - visited' < AllTargets(def) - visited
              || (visited' == visited && |stack'| < |stack|)
  {
    var id := stack[|stack| - 1];
    stack', seen', grouped', bad := stack[..|stack| - 1], seen, grouped, None;
    assert stack == stack' + [id];
    TopIsReached(def, from, visited, stack', seen, id);
    visited' := visited + {id};
    if id in visited || !IsGateway(def, id) {
      SkipKeepsInvariant(def, from, visited, stack', seen, id);
    } else {
      var broken;
      grouped', stack', broken := ScanGateway(def, from, visited, stack', seen, grouped, id);
      if broken.Some? {
        bad := Some(Unparseable(id, broken.value));
      }
      seen' := seen + EdgeSet(def.nodes[id].edges);
    }
  }

  /** What a user must choose before a token can leave a node: the whole search. */
  method GatewayChoicesAfter(def: Definition, from: NodeId)
    returns (r: Result<Option<seq<GatewayChoice>>, SearchError>)
    ensures Answers(def, from, r)
  {
    if from !in def.nodes {
      return Failure(NodeNotFound(from));
    }
    var grouped: map<string, seq<string>> := map[];
    var visited: set<NodeId> := {};
    var stack := Targets(def.nodes[from].edges);
    ghost var seen: set<Edge> := {};
    StartKeepsInvariant(def, from);
    while stack != []
      invariant Searching(def, from, visited, stack, seen)
      invariant Collected(seen, grouped)
      decreases AllTargets(def) - visited, |stack|
    {
      var bad;
      visited, stack, seen, grouped, bad := Turn(def, from, visited, stack, seen, grouped);
      if bad.Some? {
        return Failure(bad.value);
      }
    }
    r := Report(def, from, visited, seen, grouped);
  }

  lemma StartKeepsInvariant(def: Definition, from: NodeId)
    requires from in def.nodes
    ensures Searching(def, from, {}, Targets(def.nodes[from].edges), {})
  {
    TargetsArePointedTo(def.nodes[from].edges);
    TargetsAreKnown(def, from);
    forall t | PointsTo(def.nodes[from].edges, t) ensures Reached(def, from, t) { ReachedStart(def, from, t); }
  }

  lemma ScanKeepsBounds(def: Definition, stack: seq<NodeId>, id: NodeId)
    requires id in def.nodes && Elements(stack) <= AllTargets(def)
    ensures var es := def.nodes[id].edges;
            && Elements(stack + Targets(es)) == Elements(stack) + Elements(Targets(es))
            && Elements(stack + Targets(es)) <= AllTargets(def)
  {
    TargetsAreKnown(def, id);
  }

  /** The answer, read off the groups. */
  method Report(def: Definition, from: NodeId, ghost visited: set<NodeId>, ghost seen: set<Edge>,
                grouped: map<string, seq<string>>)
    returns (r: Result<Option<seq<GatewayChoice>>, SearchError>)
    requires from in def.nodes && Searching(def, from, visited, [], seen) && Collected(seen, grouped)
    ensures Answers(def, from, r)
  {
    assert visited + Elements([]) == visited;
    SeenIsAhead(def, from, visited, seen);
    forall k, v ensures Holds(grouped, k, v) <==> Asks(def, from, k, v) {}
    if grouped == map[] {
      return Success(None);
    }
    var cs := InKeyOrder(grouped);
    ListsSame(cs, (k, v) => Holds(grouped, k, v), (k, v) => Asks(def, from, k, v));
    r := Success(Some(cs));
  }

  lemma ListsSame(cs: seq<GatewayChoice>, P: (string, string) -> bool, Q: (string, string) -> bool)
    requires Lists(cs, P) && forall k, v :: P(k, v) <==> Q(k, v)
    ensures Lists(cs, Q)
  {
  }

  lemma SeenIsAhead(def: Definition, from: NodeId, visited: set<NodeId>, seen: set<Edge>)
    requires from in def.nodes && Sound(def, from, visited, seen) && Closed(def, from, visited, visited, seen)
    ensures !Broken(def, from)
    ensures forall k, v :: Asks(def, from, k, v) <==> AskedBy(seen, k, v)
  {
    forall g, e | Ahead(def, from, g, e) ensures e in seen {
      var w :| GatewayWalk(def, from, w) && w[|w| - 1] == g;
      WalksAreVisited(def, from, w, visited, seen);
      assert Explored(def, visited, seen, g);
    }
    forall k, v ensures Asks(def, from, k, v) <==> AskedBy(seen, k, v) {
      if AskedBy(seen, k, v) {
        var e :| e in seen && AsksPair(e, k, v);
        var g :| Ahead(def, from, g, e);
      }
    }
  }

  // ---------- Reading the groups in key order ----------

  /** The keys of an ordered map, ascending. */
  method KeysInOrder(grouped: map<string, seq<string>>) returns (keys: seq<string>)
    ensures Ascending(keys) && forall k :: k in keys <==> k in grouped
  {
    keys := [];
    var rest := grouped.Keys;
    while rest != {}
      invariant rest <= grouped.Keys && Ascending(keys)
      invariant forall k :: k in keys <==> k in grouped && k !in rest
    {
      var k :| k in rest;
      keys := Insert(keys, k);
      rest := rest - {k};
    }
  }

  /** Walks the groups in ascending key order, sorting and deduplicating each. */
  method InKeyOrder(grouped: map<string, seq<string>>) returns (cs: seq<GatewayChoice>)
    requires forall k :: k in grouped ==> grouped[k] != []
    ensures Lists(cs, (k, v) => Holds(grouped, k, v))
    ensures grouped != map[] ==> cs != []
  {
    var keys := KeysInOrder(grouped);
    cs := [];
    for i := 0 to |keys|
      invariant |cs| == i
      invariant forall j :: 0 <= j < i ==> cs[j].key == keys[j] && keys[j] in grouped
      invariant forall j :: 0 <= j < i ==> cs[j].values == SortDedup(grouped[keys[j]])
    {
      assert keys[i] in keys;
      cs := cs + [GatewayChoice(keys[i], SortDedup(grouped[keys[i]]))];
    }
    ListsGroups(grouped, keys, cs);
    if grouped != map[] {
      var k :| k in grouped;
      assert k in keys;
    }
  }

  lemma ListsGroups(grouped: map<string, seq<string>>, keys: seq<string>, cs: seq<GatewayChoice>)
    requires forall k :: k in grouped ==> grouped[k] != []
    requires Ascending(keys) && forall k :: k in keys <==> k in grouped
    requires |cs| == |keys| && forall j :: 0 <= j < |keys| ==> cs[j].key == keys[j] && keys[j] in grouped
    requires forall j :: 0 <= j < |keys| ==> cs[j].values == SortDedup(grouped[keys[j]])
    ensures Lists(cs, (k, v) => Holds(grouped, k, v))
  {
    forall i | 0 <= i < |cs| ensures cs[i].values != [] {
      assert grouped[keys[i]][0] in cs[i].values;
    }
    forall k, v | Holds(grouped, k, v) ensures exists i :: 0 <= i < |cs| && cs[i].key == k && v in cs[i].values {
      assert k in keys;
      var i :| 0 <= i < |keys| && keys[i] == k;
      assert cs[i].key == k;
    }
  }

  // ---------- The answer is determined ----------

  lemma {:induction false} ListsUnique(a: seq<GatewayChoice>, b: seq<GatewayChoice>, P: (string, string) -> bool)
    requires Lists(a, P) && Lists(b, P)
    ensures a == b
  {
    var ka, kb := Keys(a), Keys(b);
    KeysListed(a, b, P);
    KeysListed(b, a, P);
    AscendingUnique(ka, kb);
    forall i | 0 <= i < |a| ensures a[i] == b[i] {
      assert ka[i] == kb[i];
      SameValues(a, b, P, i);
      SameValues(b, a, P, i);
      AscendingUnique(a[i].values, b[i].values);
    }
  }

  function Keys(cs: seq<GatewayChoice>): (r: seq<string>)
    ensures |r| == |cs| && forall i :: 0 <= i < |cs| ==> r[i] == cs[i].key
  {
    seq(|cs|, i requires 0 <= i < |cs| => cs[i].key)
  }

  lemma KeysListed(a: seq<GatewayChoice>, b: seq<GatewayChoice>, P: (string, string) -> bool)
    requires Lists(a, P) && Lists(b, P)
    ensures forall k :: k in Keys(a) ==> k in Keys(b)
  {
    forall k | k in Keys(a) ensures k in Keys(b) {
      var i :| 0 <= i < |a| && Keys(a)[i] == k;
      var v := a[i].values[0];
      assert P(a[i].key, v);
      var j :| 0 <= j < |b| && b[j].key == k && v in b[j].values;
      assert Keys(b)[j] == k;
    }
  }

  lemma SameValues(a: seq<GatewayChoice>, b: seq<GatewayChoice>, P: (string, string) -> bool, i: nat)
    requires Lists(a, P) && Lists(b, P) && i < |a| && i < |b| && a[i].key == b[i].key
    ensures forall v :: v in a[i].values ==> v in b[i].values
  {
    forall v | v in a[i].values ensures v in b[i].values {
      assert P(a[i].key, v);
      var j :| 0 <= j < |b| && b[j].key == a[i].key && v in b[j].values;
      if i < j { assert StrLess(b[i].key, b[j].key); }
      if j < i { assert StrLess(b[j].key, b[i].key); }
      StrLessIrreflexive(a[i].key);
    }
  }

  /** Two successful answers for the same node are the same, and success excludes failure: the result
      does not depend on the order in which the graph is explored, save for which broken condition is
      reported first. */
  lemma AnswerUnique(def: Definition, from: NodeId, r: Result<Option<seq<GatewayChoice>>, SearchError>,
                     s: Result<Option<seq<GatewayChoice>>, SearchError>)
    requires Answers(def, from, r) && Answers(def, from, s)
    ensures r.Success? <==> s.Success?
    ensures r.Success? ==> r == s
  {
    if r.Success? && s.Success? {
      if r.value.Some? && s.value.Some? {
        ListsUnique(r.value.value, s.value.value, (k, v) => Asks(def, from, k, v));
      } else if r.value.Some? {
        SomeAsks(def, from, r.value.value);
      } else if s.value.Some? {
        SomeAsks(def, from, s.value.value);
      }
    }
  }

  lemma SomeAsks(def: Definition, from: NodeId, cs: seq<GatewayChoice>)
    requires cs != [] && Lists(cs, (k, v) => Asks(def, from, k, v))
    ensures exists k, v :: Asks(def, from, k, v)
  {
    assert cs[0].values[0] in cs[0].values;
    assert Asks(def, from, cs[0].key, cs[0].values[0]);
  }

  /** What a structured edge ahead asks for is in the answer: its value under its key. */
  lemma StructuredAsked(def: Definition, from: NodeId, g: NodeId, e: Edge, key: string, value: string,
                        r: Result<Option<seq<GatewayChoice>>, SearchError>)
    requires Answers(def, from, r) && r.Success? && Ahead(def, from, g, e)
    requires e.condition == Some(VariableEq(key, value))
    ensures r.value.Some?
    ensures exists i :: 0 <= i < |r.value.value| && r.value.value[i].key == key && value in r.value.value[i].values
  {
    var P := (k, v) => Asks(def, from, k, v);
    assert AsksPair(e, key, value);
    assert Asks(def, from, key, value) && P(key, value);
  }

  /** An edge without a condition, and the default edge, ask for nothing and break nothing. */
  lemma PlainEdgesAskNothing(e: Edge, key: string, value: string)
    ensures e.condition == None || e.condition == Some(Default) ==> !AsksPair(e, key, value) && !Malformed(e)
    ensures !AsksPair(e, key, value) && (forall k, v :: !AsksPair(e, k, v)) && !Malformed(e) ==>
              e.condition == None || e.condition == Some(Default)
  {
    if e.condition.Some? && ParseEdgeCondition(e.condition.value).Some? {
      var p := ParseEdgeCondition(e.condition.value).value;
      assert e.condition != Some(Default) ==> AsksPair(e, p.0, p.1);
    }
  }
}
