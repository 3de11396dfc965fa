/**
 Decision tasks (engine_def_store.rs): a user task is put in front of every exclusive gateway
 that branches on a variable, and every edge into such a gateway is redirected to the task.

 `Rewrite` says what the stored definition becomes; the method loops over mutable
 maps, and it reaches `Rewrite` in whatever order the maps are walked.
 */
module DecisionTasks {
  import opened Wrappers
  import opened Text
  import opened ProcessModel

  const DECISION_SUFFIX: string := "__decide"

  function DecisionId(g: NodeId): NodeId {
    g + DECISION_SUFFIX
  }

  predicate IsDecisionName(id: NodeId) {
    EndsWith(id, DECISION_SUFFIX)
  }

  /** The gateway a decision name belongs to. */
  function GateOf(id: NodeId): NodeId
    requires IsDecisionName(id)
  {
    id[..|id| - |DECISION_SUFFIX|]
  }

  lemma DecisionIdNames(g: NodeId)
    ensures IsDecisionName(DecisionId(g)) && GateOf(DecisionId(g)) == g
  {
  }

  lemma GateOfInverts(id: NodeId)
    requires IsDecisionName(id)
    ensures DecisionId(GateOf(id)) == id
  {
    assert id == id[..|id| - |DECISION_SUFFIX|] + id[|id| - |DECISION_SUFFIX|..];
  }

  predicate Branches(c: Option<EdgeCondition>) {
    c.Some? && !c.value.Default?
  }

  /** An exclusive gateway with at least one condition that is not the default. */
  predicate Deciding(n: Node) {
    n.nodeType.ExclusiveGateway? && exists e :: e in n.edges && Branches(e.condition)
  }

  function Gates(def: Definition): set<NodeId> {
    set k | k in def.nodes && Deciding(def.nodes[k])
  }

  function DecisionNode(g: NodeId): Node {
    Node(UserTask, [Edge(g, None)])
  }

  // ---------- The rewritten definition ----------

  function Redirect(gates: set<NodeId>, e: Edge): Edge {
    if e.target in gates then e.(target := DecisionId(e.target)) else e
  }

  function RedirectAll(gates: set<NodeId>, es: seq<Edge>): (r: seq<Edge>)
    ensures |r| == |es|
    ensures forall i :: 0 <= i < |es| ==> r[i] == Redirect(gates, es[i])
  {
    seq(|es|, i requires 0 <= i < |es| => Redirect(gates, es[i]))
  }

  /** The id was put in by the rewrite. */
  predicate Inserted(gates: set<NodeId>, id: NodeId) {
    IsDecisionName(id) && GateOf(id) in gates
  }

  function RewriteNode(gates: set<NodeId>, id: NodeId, n: Node): Node {
    if IsDecisionName(id) then n else n.(edges := RedirectAll(gates, n.edges))
  }

  function DecisionIds(gates: set<NodeId>): set<NodeId> {
    set g | g in gates :: DecisionId(g)
  }

  lemma DecisionIdsAreInserted(gates: set<NodeId>, id: NodeId)
    ensures id in DecisionIds(gates) <==> Inserted(gates, id)
  {
    if id in DecisionIds(gates) {
      var g :| g in gates && DecisionId(g) == id;
      DecisionIdNames(g);
    }
    if Inserted(gates, id) { GateOfInverts(id); }
  }

  function Rewrite(def: Definition): (r: Definition)
  {
    var gates := Gates(def);
    Definition(map k | k in def.nodes.Keys + DecisionIds(gates) ::
                 if Inserted(gates, k) then DecisionNode(GateOf(k))
                 else
                   assert k in def.nodes by { DecisionIdsAreInserted(gates, k); }
                   RewriteNode(gates, k, def.nodes[k]))
  }

  /** What every node of the rewritten definition is. */
  lemma RewriteNodes(def: Definition, id: NodeId)
    ensures id in Rewrite(def).nodes <==> id in def.nodes || Inserted(Gates(def), id)
    ensures Inserted(Gates(def), id) ==> Rewrite(def).nodes[id] == DecisionNode(GateOf(id))
    ensures id in def.nodes && !Inserted(Gates(def), id) ==>
              Rewrite(def).nodes[id] == RewriteNode(Gates(def), id, def.nodes[id])
  {
    DecisionIdsAreInserted(Gates(def), id);
  }

  // ---------- The loops ----------

  /** Some part of the edges, the first n, has been redirected. */
  ghost predicate RedirectedUpTo(gates: set<NodeId>, before: seq<Edge>, after: seq<Edge>, n: nat) {
    && n <= |before| == |after|
    && (forall i :: 0 <= i < n ==> after[i] == Redirect(gates, before[i]))
    && (forall i :: n <= i < |before| ==> after[i] == before[i])
  }

  method RedirectEdges(redirect: map<NodeId, NodeId>, es: seq<Edge>) returns (r: seq<Edge>)
    requires forall g :: g in redirect ==> redirect[g] == DecisionId(g)
    ensures r == RedirectAll(redirect.Keys, es)
  {
    r := es;
    for i := 0 to |es|
      invariant RedirectedUpTo(redirect.Keys, es, r, i)
    {
      var e := r[i];
      if e.target in redirect {
        r := r[i := e.(target := redirect[e.target])];
      }
    }
  }

  /** The nodes once the gates of `done` have their decision tasks, before any redirection. */
  ghost predicate TasksInserted(def: Definition, done: set<NodeId>, nodes: map<NodeId, Node>) {
    && (forall k :: k in nodes <==> k in def.nodes || Inserted(done, k))
    && (forall k :: k in nodes && Inserted(done, k) ==> nodes[k] == DecisionNode(GateOf(k)))
    && (forall k :: k in nodes && !Inserted(done, k) ==> nodes[k] == def.nodes[k])
  }

  method InsertTasks(def: Definition, gates: set<NodeId>)
    returns (redirect: map<NodeId, NodeId>, nodes: map<NodeId, Node>)
    ensures redirect.Keys == gates && forall g :: g in redirect ==> redirect[g] == DecisionId(g)
    ensures TasksInserted(def, gates, nodes)
  {
    redirect, nodes := map[], def.nodes;
    var rest := gates;
    while rest != {}
      invariant rest <= gates && redirect.Keys == gates - rest
      invariant forall g :: g in redirect ==> redirect[g] == DecisionId(g)
      invariant TasksInserted(def, redirect.Keys, nodes)
    {
      var g :| g in rest;
      var did := DecisionId(g);
      forall k ensures Inserted(redirect.Keys + {g}, k) <==> Inserted(redirect.Keys, k) || k == did {
        DecisionIdNames(g);
        if IsDecisionName(k) { GateOfInverts(k); }
      }
      redirect := redirect[g := did];
      nodes := nodes[did := Node(UserTask, [Edge(g, None)])];
      rest := rest - {g};
    }
  }

  method RedirectNodes(redirect: map<NodeId, NodeId>, nodes: map<NodeId, Node>) returns (r: map<NodeId, Node>)
    requires forall g :: g in redirect ==> redirect[g] == DecisionId(g)
    ensures r == map k | k in nodes :: RewriteNode(redirect.Keys, k, nodes[k])
  {
    r := nodes;
    var left := nodes.Keys;
    while left != {}
      invariant left <= nodes.Keys == r.Keys
      invariant forall k :: k in left ==> r[k] == nodes[k]
      invariant forall k :: k in nodes && k !in left ==> r[k] == RewriteNode(redirect.Keys, k, nodes[k])
    {
      var k :| k in left;
      left := left - {k};
      if EndsWith(k, DECISION_SUFFIX) {
        continue;
      }
      var es := RedirectEdges(redirect, r[k].edges);
      r := r[k := r[k].(edges := es)];
    }
  }

  method InsertDecisionTasks(def: Definition) returns (out: Definition)
    ensures out == Rewrite(def)
  {
    var gates := set k | k in def.nodes && Deciding(def.nodes[k]);
    if gates == {} {
      NoGatesNoChange(def);
      return def;
    }
    var redirect, inserted := InsertTasks(def, gates);
    var nodes := RedirectNodes(redirect, inserted);
    forall k ensures k in nodes <==> k in Rewrite(def).nodes { RewriteNodes(def, k); }
    forall k | k in nodes ensures nodes[k] == Rewrite(def).nodes[k] { RewriteNodes(def, k); }
    out := Definition(nodes);
  }

  lemma NoGatesNoChange(def: Definition)
    requires Gates(def) == {}
    ensures Rewrite(def) == def
  {
    forall k | k in def.nodes ensures Rewrite(def).nodes[k] == def.nodes[k] {
      assert RedirectAll({}, def.nodes[k].edges) == def.nodes[k].edges;
    }
    assert Rewrite(def).nodes.Keys == def.nodes.Keys;
  }
}
