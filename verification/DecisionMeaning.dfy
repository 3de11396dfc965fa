/**
 What the decision-task rewrite preserves. Paths of the original graph and paths of the rewritten
 graph between original nodes correspond one to one, gateways choose the same edges, every visit to
 a deciding gateway passes its own decision task first, and a second rewrite changes nothing.
 Which definitions are affected when names clash is the subject of `DecisionExact`.
 */
module DecisionMeaning {
  import opened Wrappers
  import opened Text
  import opened ProcessModel
  import opened DecisionTasks

  /** No node of the definition uses a name reserved for decision tasks. */
  predicate CleanIds(def: Definition) {
    forall k :: k in def.nodes ==> !IsDecisionName(k)
  }

  /** No dangling edge happens to name a decision task that the rewrite will create. */
  predicate NoneDangling(def: Definition) {
    forall k :: k in def.nodes ==> forall e :: e in def.nodes[k].edges ==> !Inserted(Gates(def), e.target)
  }

  /** Every such dangling edge stands beside a drawn edge to the gate. */
  ghost predicate Backed(def: Definition) {
    forall k :: k in def.nodes ==> forall e :: e in def.nodes[k].edges && Inserted(Gates(def), e.target) ==>
      Linked(def, k, GateOf(e.target))
  }

  /** An edge of a drawn node, wherever it leads. */
  ghost predicate LeadsTo(def: Definition, a: NodeId, t: NodeId) {
    a in def.nodes && exists e :: e in def.nodes[a].edges && e.target == t
  }

  function Last<T>(p: seq<T>): T
    requires p != []
  {
    p[|p| - 1]
  }

  function Front<T>(p: seq<T>): seq<T>
    requires p != []
  {
    p[..|p| - 1]
  }

  // ---------- Lifting and erasing ----------

  /** A path through the rewritten graph: each gate entered is preceded by its decision task. */
  function Lift(gates: set<NodeId>, p: seq<NodeId>): seq<NodeId> {
    if |p| <= 1 then p else Lift(gates, Front(p)) + Via(gates, Last(p))
  }

  function Via(gates: set<NodeId>, b: NodeId): seq<NodeId> {
    if b in gates then [DecisionId(b), b] else [b]
  }

  /** The visits to nodes that are not decision tasks. */
  function Erase(p: seq<NodeId>): seq<NodeId> {
    if p == [] then []
    else if IsDecisionName(Last(p)) then Erase(Front(p))
    else Erase(Front(p)) + [Last(p)]
  }

  // ---------- Edges of the rewritten graph ----------

  /** The edges of an original node, redirected: from the rewritten edge to the drawn one. */
  lemma DrawnEdge(def: Definition, a: NodeId, f: Edge) returns (e: Edge)
    requires CleanIds(def) && a in def.nodes && a in Rewrite(def).nodes && f in Rewrite(def).nodes[a].edges
    ensures e in def.nodes[a].edges && f == Redirect(Gates(def), e)
  {
    RewriteNodes(def, a);
    var fs := Rewrite(def).nodes[a].edges;
    var i :| 0 <= i < |fs| && fs[i] == f;
    e := def.nodes[a].edges[i];
  }

  /** And from the drawn edge to the rewritten one. */
  lemma RewrittenEdge(def: Definition, a: NodeId, e: Edge)
    requires CleanIds(def) && a in def.nodes && e in def.nodes[a].edges
    ensures a in Rewrite(def).nodes && Redirect(Gates(def), e) in Rewrite(def).nodes[a].edges
  {
    RewriteNodes(def, a);
    var es := def.nodes[a].edges;
    var i :| 0 <= i < |es| && es[i] == e;
    assert Rewrite(def).nodes[a].edges[i] == Redirect(Gates(def), e);
  }

  /** What leads from an original node to b in the rewritten graph. */
  ghost predicate Comes(def: Definition, a: NodeId, b: NodeId) {
    if Inserted(Gates(def), b) then Linked(def, a, GateOf(b)) || LeadsTo(def, a, b)
    else b !in Gates(def) && Linked(def, a, b)
  }

  lemma LinkComes(def: Definition, a: NodeId, b: NodeId)
    requires CleanIds(def) && a in def.nodes && Linked(Rewrite(def), a, b)
    ensures Comes(def, a, b)
  {
    RewriteNodes(def, b);
    var f :| f in Rewrite(def).nodes[a].edges && f.target == b;
    var e := DrawnEdge(def, a, f);
    DecisionIdNames(e.target);
  }

  lemma ComesLinked(def: Definition, a: NodeId, b: NodeId)
    requires CleanIds(def) && a in def.nodes && Comes(def, a, b)
    ensures Linked(Rewrite(def), a, b)
  {
    RewriteNodes(def, b);
    RewriteNodes(def, a);
    var t := if Inserted(Gates(def), b) && Linked(def, a, GateOf(b)) then GateOf(b) else b;
    var e :| e in def.nodes[a].edges && e.target == t;
    if t != b { GateOfInverts(b); }
    RewrittenEdge(def, a, e);
    assert Redirect(Gates(def), e).target == b;
  }

  lemma DecisionEdges(def: Definition, a: NodeId, b: NodeId)
    requires CleanIds(def) && IsDecisionName(a)
    ensures Linked(Rewrite(def), a, b) <==> GateOf(a) in Gates(def) && b == GateOf(a)
  {
    RewriteNodes(def, a);
    RewriteNodes(def, b);
    if GateOf(a) in Gates(def) { assert Edge(GateOf(a), None) in Rewrite(def).nodes[a].edges; }
  }

  lemma PathSnoc(def: Definition, p: seq<NodeId>, b: NodeId)
    requires p != []
    ensures IsPath(def, p + [b]) <==> IsPath(def, p) && Linked(def, Last(p), b)
  {
    var q := p + [b];
    assert q[|p|] == b && q[|p| - 1] == Last(p);
    assert forall i :: 0 <= i < |p| ==> q[i] == p[i];
    if IsPath(def, q) { assert Linked(def, q[|p| - 1], q[|p|]); }
  }

  // ---------- One path for one path ----------

  /** What the lift of a path is good for: it is a path with the same ends, and erasing gives p back. */
  ghost predicate Lifts(def: Definition, p: seq<NodeId>) {
    && p != [] && Lift(Gates(def), p) != []
    && IsPath(Rewrite(def), Lift(Gates(def), p))
    && Lift(Gates(def), p)[0] == p[0] && Last(Lift(Gates(def), p)) == Last(p)
    && Erase(Lift(Gates(def), p)) == p
  }

  lemma LiftSnoc(gates: set<NodeId>, p: seq<NodeId>, b: NodeId)
    requires p != []
    ensures Lift(gates, p + [b]) == Lift(gates, p) + Via(gates, b)
  {
    assert Front(p + [b]) == p;
  }

  lemma LiftMoveToGate(def: Definition, p: seq<NodeId>, b: NodeId)
    requires CleanIds(def) && Lifts(def, p) && Linked(def, Last(p), b) && b in Gates(def)
    ensures Lifts(def, p + [b])
  {
    var r, up, d := Rewrite(def), Lift(Gates(def), p), DecisionId(b);
    DecisionIdNames(b);
    ComesLinked(def, Last(p), d);
    DecisionEdges(def, d, b);
    PathSnoc(r, up, d);
    PathSnoc(r, up + [d], b);
    EraseSnoc(up, d);
    EraseSnoc(up + [d], b);
    LiftSnoc(Gates(def), p, b);
    SnocTwice(up, d, b);
  }

  lemma LiftMoveOn(def: Definition, p: seq<NodeId>, b: NodeId)
    requires CleanIds(def) && Lifts(def, p) && Linked(def, Last(p), b) && b !in Gates(def)
    ensures Lifts(def, p + [b])
  {
    var up := Lift(Gates(def), p);
    ComesLinked(def, Last(p), b);
    PathSnoc(Rewrite(def), up, b);
    EraseSnoc(up, b);
    LiftSnoc(Gates(def), p, b);
  }

  /** Every original path has a lifted path with the same ends, and erasing it gives it back. */
  lemma {:induction false} LiftIsPath(def: Definition, p: seq<NodeId>)
    requires CleanIds(def) && IsPath(def, p)
    ensures Lifts(def, p)
  {
    if |p| == 1 {
      RewriteNodes(def, p[0]);
      assert Erase(Front(p)) == [];
    } else {
      var front, b := Front(p), Last(p);
      assert p == front + [b];
      PathSnoc(def, front, b);
      LiftIsPath(def, front);
      if b in Gates(def) { LiftMoveToGate(def, front, b); } else { LiftMoveOn(def, front, b); }
    }
  }

  lemma EraseSnoc(p: seq<NodeId>, b: NodeId)
    ensures Erase(p + [b]) == if IsDecisionName(b) then Erase(p) else Erase(p) + [b]
  {
    assert Front(p + [b]) == p;
  }

  /** What it takes for a rewritten path to be the lift of an original one. */
  ghost predicate ErasesTo(def: Definition, q: seq<NodeId>) {
    && q != [] && Erase(q) != []
    && IsPath(def, Erase(q)) && Last(Erase(q)) == Last(q) && Erase(q)[0] == q[0]
    && Lift(Gates(def), Erase(q)) == q
  }

  lemma EraseMoveOn(def: Definition, q: seq<NodeId>, b: NodeId)
    requires ErasesTo(def, q) && Linked(def, Last(q), b) && !IsDecisionName(b) && b !in Gates(def)
    ensures ErasesTo(def, q + [b])
  {
    PathSnoc(def, Erase(q), b);
    EraseSnoc(q, b);
    LiftSnoc(Gates(def), Erase(q), b);
  }

  lemma EraseMoveToGate(def: Definition, q: seq<NodeId>, b: NodeId)
    requires ErasesTo(def, q) && Linked(def, Last(q), b) && !IsDecisionName(b) && b in Gates(def)
    ensures ErasesTo(def, q + [DecisionId(b)] + [b])
  {
    var d := DecisionId(b);
    DecisionIdNames(b);
    PathSnoc(def, Erase(q), b);
    EraseSnoc(q, d);
    EraseSnoc(q + [d], b);
    LiftSnoc(Gates(def), Erase(q), b);
    SnocTwice(q, d, b);
  }

  /** Erasing a rewritten path between original nodes gives an original path, of which it is the lift. */
  lemma {:induction false} EraseIsPath(def: Definition, q: seq<NodeId>)
    requires CleanIds(def) && Backed(def) && IsPath(Rewrite(def), q)
    requires !IsDecisionName(q[0]) && !IsDecisionName(Last(q))
    ensures ErasesTo(def, q)
    decreases |q|
  {
    var r := Rewrite(def);
    RewriteNodes(def, q[0]);
    if |q| == 1 {
      assert Erase(Front(q)) == [];
      assert Erase(q) == q;
    } else {
      var b, front := Last(q), Front(q);
      var a := Last(front);
      assert q == front + [b];
      PathSnoc(r, front, b);
      RewriteNodes(def, a);
      if IsDecisionName(a) {
        DecisionEdges(def, a, b);
        GateOfInverts(a);
        var core := Front(front);
        assert front == core + [a];
        PathSnoc(r, core, a);
        NotFromDecision(def, Last(core), a);
        EraseIsPath(def, core);
        EraseMoveToGate(def, core, b);
      } else {
        LinkComes(def, a, b);
        EraseIsPath(def, front);
        EraseMoveOn(def, front, b);
      }
    }
  }

  /** A decision task is entered from original nodes that lead to its gate. */
  lemma NotFromDecision(def: Definition, c: NodeId, d: NodeId)
    requires CleanIds(def) && Backed(def) && IsDecisionName(d) && Linked(Rewrite(def), c, d)
    ensures !IsDecisionName(c) && Linked(def, c, GateOf(d))
  {
    RewriteNodes(def, c);
    RewriteNodes(def, d);
    if IsDecisionName(c) {
      DecisionEdges(def, c, d);
      assert false;
    }
    LinkComes(def, c, d);
  }

  /** The correspondence for one pair: p is an original path and q its lift, exactly if q is a rewritten
      path and p its erasure. */
  ghost predicate Correspond(def: Definition, p: seq<NodeId>, q: seq<NodeId>) {
    IsPath(def, p) && q == Lift(Gates(def), p) <==> IsPath(Rewrite(def), q) && p == Erase(q)
  }

  /** Lifting and erasing are inverse: each original path is the erasure of exactly one rewritten path between
      original nodes, and every such rewritten path arises this way. */
  lemma PathsCorrespond(def: Definition, p: seq<NodeId>, q: seq<NodeId>)
    requires CleanIds(def) && Backed(def)
    requires q != [] && !IsDecisionName(q[0]) && !IsDecisionName(Last(q))
    ensures Correspond(def, p, q)
  {
    if IsPath(def, p) { LiftIsPath(def, p); }
    if IsPath(Rewrite(def), q) { EraseIsPath(def, q); }
  }

  // ---------- Gateways choose the same edges ----------

  /** How an engine picks an outgoing edge: any function of the ordered conditions and the variables. */
  type Selection = (seq<Option<EdgeCondition>>, Variables) -> int

  function Conditions(n: Node): (r: seq<Option<EdgeCondition>>)
    ensures |r| == |n.edges| && forall i :: 0 <= i < |r| ==> r[i] == n.edges[i].condition
  {
    seq(|n.edges|, i requires 0 <= i < |n.edges| => n.edges[i].condition)
  }

  /** A selection that follows the only edge of a node when that edge carries no condition. */
  ghost predicate FollowsPlainEdge(sel: Selection) {
    forall v :: sel([None], v) == 0
  }

  /** Under the variables v, a token on a is sent to b. */
  predicate Moves(def: Definition, sel: Selection, a: NodeId, v: Variables, b: NodeId) {
    && a in def.nodes
    && var n := def.nodes[a];
       var i := sel(Conditions(n), v);
       0 <= i < |n.edges| && n.edges[i].target == b
  }

  /** A token travels along p, the i-th move being made under vs[i]. */
  ghost predicate Travels(def: Definition, sel: Selection, p: seq<NodeId>, vs: seq<Variables>) {
    && |p| == |vs| + 1
    && (forall i :: 0 <= i < |p| ==> p[i] in def.nodes)
    && (forall i :: 0 <= i < |vs| ==> Moves(def, sel, p[i], vs[i], p[i + 1]))
  }

  function ViaVariables(gates: set<NodeId>, b: NodeId, v: Variables, w: Variables): seq<Variables> {
    if b in gates then [v, w] else [v]
  }

  /** The variables along the lifted path: whatever holds at a decision task (`w`) is free. */
  function LiftVariables(gates: set<NodeId>, p: seq<NodeId>, vs: seq<Variables>, w: nat -> Variables): seq<Variables>
    requires |p| == |vs| + 1
  {
    if vs == [] then []
    else LiftVariables(gates, Front(p), Front(vs), w) + ViaVariables(gates, Last(p), Last(vs), w(|p|))
  }

  lemma TravelsSnoc(def: Definition, sel: Selection, p: seq<NodeId>, vs: seq<Variables>, v: Variables, b: NodeId)
    requires |p| == |vs| + 1
    ensures Travels(def, sel, p + [b], vs + [v]) <==>
            Travels(def, sel, p, vs) && b in def.nodes && Moves(def, sel, Last(p), v, b)
  {
    var q, us := p + [b], vs + [v];
    assert forall i :: 0 <= i < |p| ==> q[i] == p[i];
    assert forall i :: 0 <= i < |vs| ==> us[i] == vs[i];
    assert q[|p|] == b && us[|vs|] == v && q[|vs|] == Last(p);
    if Travels(def, sel, q, us) {
      assert q[|p|] in def.nodes && Moves(def, sel, q[|vs|], us[|vs|], q[|vs| + 1]);
      forall i | 0 <= i < |vs| ensures Moves(def, sel, p[i], vs[i], p[i + 1]) {
        assert Moves(def, sel, q[i], us[i], q[i + 1]);
      }
    }
  }

  /** Where edges lead after the rewrite tells where they led before. */
  lemma ViaTells(gates: set<NodeId>, t: NodeId, b: NodeId)
    requires !Inserted(gates, t) && !IsDecisionName(b)
    ensures Via(gates, t)[0] == Via(gates, b)[0] <==> t == b
  {
    DecisionIdNames(t);
    DecisionIdNames(b);
  }

  lemma MovesOn(def: Definition, sel: Selection, a: NodeId, v: Variables, c: NodeId)
    requires CleanIds(def) && a in def.nodes
    ensures var n := def.nodes[a];
            var i := sel(Conditions(n), v);
            Moves(Rewrite(def), sel, a, v, c) <==> 0 <= i < |n.edges| && Via(Gates(def), n.edges[i].target)[0] == c
  {
    RewriteNodes(def, a);
    assert Conditions(Rewrite(def).nodes[a]) == Conditions(def.nodes[a]);
  }

  lemma MovesOffDecision(def: Definition, sel: Selection, b: NodeId, w: Variables)
    requires FollowsPlainEdge(sel) && b in Gates(def)
    ensures Moves(Rewrite(def), sel, DecisionId(b), w, b)
  {
    DecisionIdNames(b);
    RewriteNodes(def, DecisionId(b));
    assert Conditions(DecisionNode(b)) == [None];
  }

  /** A move is made in the drawn graph exactly if it is made in the executed one, by way of the decision task
      if it leads to a gate. */
  predicate SameMove(def: Definition, sel: Selection, a: NodeId, v: Variables, b: NodeId, w: Variables) {
    Moves(def, sel, a, v, b) <==>
      if b in Gates(def)
      then Moves(Rewrite(def), sel, a, v, DecisionId(b)) && Moves(Rewrite(def), sel, DecisionId(b), w, b)
      else Moves(Rewrite(def), sel, a, v, b)
  }

  /** One move: an original node offers the same conditions in the same order, so the selected edge is
      the same one, and it leads to the same node, by way of the decision task if that node is a gate. */
  lemma MovesThroughDecision(def: Definition, sel: Selection, a: NodeId, v: Variables, b: NodeId, w: Variables)
    requires CleanIds(def) && NoneDangling(def) && FollowsPlainEdge(sel) && a in def.nodes && b in def.nodes
    ensures SameMove(def, sel, a, v, b, w)
  {
    var n := def.nodes[a];
    var i := sel(Conditions(n), v);
    MovesOn(def, sel, a, v, Via(Gates(def), b)[0]);
    if 0 <= i < |n.edges| {
      assert n.edges[i] in n.edges;
      ViaTells(Gates(def), n.edges[i].target, b);
    }
    if b in Gates(def) { MovesOffDecision(def, sel, b, w); }
  }

  /** The journey up the lift of p goes where the journey along p goes. */
  ghost predicate Agree(def: Definition, sel: Selection, p: seq<NodeId>, vs: seq<Variables>, up: seq<NodeId>,
                        ups: seq<Variables>)
  {
    && |p| == |vs| + 1 && |up| == |ups| + 1 && Last(up) == Last(p)
    && (Travels(def, sel, p, vs) <==> Travels(Rewrite(def), sel, up, ups))
  }

  lemma SnocTwice<T>(s: seq<T>, x: T, y: T)
    ensures s + [x, y] == s + [x] + [y]
  {
  }

  lemma AgreeAtGate(def: Definition, sel: Selection, p: seq<NodeId>, vs: seq<Variables>, up: seq<NodeId>,
                    ups: seq<Variables>,
                    b: NodeId, v: Variables, w: Variables)
    requires CleanIds(def) && NoneDangling(def) && FollowsPlainEdge(sel) && Agree(def, sel, p, vs, up, ups)
    requires Last(p) in def.nodes && b in Gates(def)
    ensures Agree(def, sel, p + [b], vs + [v], up + [DecisionId(b)] + [b], ups + [v] + [w])
  {
    var r, d := Rewrite(def), DecisionId(b);
    TravelsSnoc(def, sel, p, vs, v, b);
    MovesThroughDecision(def, sel, Last(p), v, b, w);
    DecisionIdNames(b);
    RewriteNodes(def, b);
    RewriteNodes(def, d);
    TravelsSnoc(r, sel, up, ups, v, d);
    TravelsSnoc(r, sel, up + [d], ups + [v], w, b);
  }

  lemma AgreeOneMove(def: Definition, sel: Selection, p: seq<NodeId>, vs: seq<Variables>, up: seq<NodeId>,
                     ups: seq<Variables>,
                     b: NodeId, v: Variables, w: Variables)
    requires CleanIds(def) && NoneDangling(def) && FollowsPlainEdge(sel) && Agree(def, sel, p, vs, up, ups)
    requires Last(p) in def.nodes && b in def.nodes
    ensures Agree(def, sel, p + [b], vs + [v], up + Via(Gates(def), b), ups + ViaVariables(Gates(def), b, v, w))
  {
    if b in Gates(def) {
      AgreeAtGate(def, sel, p, vs, up, ups, b, v, w);
      SnocTwice(up, DecisionId(b), b);
      SnocTwice(ups, v, w);
    } else {
      TravelsSnoc(def, sel, p, vs, v, b);
      MovesThroughDecision(def, sel, Last(p), v, b, w);
      RewriteNodes(def, b);
      TravelsSnoc(Rewrite(def), sel, up, ups, v, b);
    }
  }

  /** Meaning is preserved along whole journeys: for any selection and any variables, a token travels
      along p in the drawn graph exactly when it travels along the lift of p in the executed graph. */
  lemma {:induction false} JourneysAgree(def: Definition, sel: Selection, p: seq<NodeId>, vs: seq<Variables>,
                                         w: nat -> Variables)
    requires CleanIds(def) && NoneDangling(def) && FollowsPlainEdge(sel)
    requires |p| == |vs| + 1 && forall i :: 0 <= i < |p| ==> p[i] in def.nodes
    ensures Agree(def, sel, p, vs, Lift(Gates(def), p), LiftVariables(Gates(def), p, vs, w))
  {
    var gates := Gates(def);
    if vs == [] {
      RewriteNodes(def, p[0]);
    } else {
      var front, b, us, v := Front(p), Last(p), Front(vs), Last(vs);
      assert p == front + [b] && vs == us + [v];
      JourneysAgree(def, sel, front, us, w);
      var up, ups := Lift(gates, front), LiftVariables(gates, front, us, w);
      AgreeOneMove(def, sel, front, us, up, ups, b, v, w(|p|));
    }
  }

  // ---------- A fresh decision before every visit ----------

  /** Every edge into a deciding gateway comes from that gateway's own decision task. */
  ghost predicate DecisionsGuard(def: Definition) {
    forall a, g :: Linked(def, a, g) && Deciding(def.nodes[g]) ==> a == DecisionId(g)
  }

  /** A node that already uses a decision name, is not replaced, and leads straight to a gate. */
  ghost predicate Bypass(def: Definition, a: NodeId, g: NodeId) {
    && IsDecisionName(a) && !Inserted(Gates(def), a)
    && g in Gates(def) && !Inserted(Gates(def), g)
    && Linked(def, a, g)
  }

  /** Exactly when the rewritten graph guards its gateways: no original node bypasses a decision. */
  lemma GuardedExactly(def: Definition)
    ensures DecisionsGuard(Rewrite(def)) <==> !exists a, g :: Bypass(def, a, g)
  {
    var gates, r := Gates(def), Rewrite(def);
    if a, g :| Bypass(def, a, g) {
      RewriteNodes(def, a);
      RewriteNodes(def, g);
      assert Linked(r, a, g);
      assert IsDecisionName(a);
      DecisionKept(def, g);
      if a == DecisionId(g) { DecisionIdNames(g); }
    }
    if !exists a, g :: Bypass(def, a, g) {
      forall a, g | Linked(r, a, g) && Deciding(r.nodes[g]) ensures a == DecisionId(g) {
        if a != DecisionId(g) { UnguardedIsBypass(def, a, g); }
      }
    }
  }

  lemma UnguardedIsBypass(def: Definition, a: NodeId, g: NodeId)
    requires Linked(Rewrite(def), a, g) && Deciding(Rewrite(def).nodes[g]) && a != DecisionId(g)
    ensures Bypass(def, a, g)
  {
    var gates, r := Gates(def), Rewrite(def);
    RewriteNodes(def, a);
    RewriteNodes(def, g);
    DecisionKept(def, g);
    var e :| e in r.nodes[a].edges && e.target == g;
    if Inserted(gates, a) {
      GateOfInverts(a);
      assert false;
    } else if !IsDecisionName(a) {
      assert false;
    }
  }

  /** The deciding gateways of the rewritten graph are the original ones that were not replaced. */
  lemma DecisionKept(def: Definition, g: NodeId)
    ensures g in Gates(Rewrite(def)) <==> g in Gates(def) && !Inserted(Gates(def), g)
  {
    RewriteNodes(def, g);
    if g in def.nodes && !Inserted(Gates(def), g) {
      var n, m := def.nodes[g], Rewrite(def).nodes[g];
      assert |n.edges| == |m.edges| && forall i :: 0 <= i < |n.edges| ==> m.edges[i].condition == n.edges[i].condition;
      if Deciding(n) {
        var e :| e in n.edges && Branches(e.condition);
        var i :| 0 <= i < |n.edges| && n.edges[i] == e;
        assert m.edges[i] in m.edges && Branches(m.edges[i].condition);
      }
      if Deciding(m) {
        var e :| e in m.edges && Branches(e.condition);
        var i :| 0 <= i < |m.edges| && m.edges[i] == e;
        assert n.edges[i] in n.edges && Branches(n.edges[i].condition);
      }
    }
  }

  /** On every path, loops included, a deciding gateway is entered from its own decision task. */
  lemma EveryVisitDecides(def: Definition, q: seq<NodeId>, i: nat)
    requires CleanIds(def) && IsPath(Rewrite(def), q) && 0 < i < |q|
    ensures q[i] in Gates(def) <==> q[i - 1] == DecisionId(q[i])
  {
    GuardedExactly(def);
    RewriteNodes(def, q[i]);
    DecisionKept(def, q[i]);
    assert Linked(Rewrite(def), q[i - 1], q[i]);
    assert !exists a, g :: Bypass(def, a, g);
    DecisionIdNames(q[i]);
    if q[i - 1] == DecisionId(q[i]) { DecisionEdges(def, q[i - 1], q[i]); }
  }

  // ---------- Rewriting twice ----------

  /** Redirected edges lead to no gate that is kept, so redirecting them again changes nothing. */
  lemma RedirectTwice(gates: set<NodeId>, kept: set<NodeId>, es: seq<Edge>)
    requires forall g :: g in kept ==> g in gates && !Inserted(gates, g)
    ensures RedirectAll(kept, RedirectAll(gates, es)) == RedirectAll(gates, es)
  {
    var rs := RedirectAll(gates, es);
    forall i | 0 <= i < |rs| ensures Redirect(kept, rs[i]) == rs[i] {
      DecisionIdNames(es[i].target);
    }
    assert RedirectAll(kept, rs) == rs;
  }

  lemma RewriteTwiceAt(def: Definition, k: NodeId)
    ensures k in Rewrite(Rewrite(def)).nodes <==> k in Rewrite(def).nodes
    ensures k in Rewrite(def).nodes ==> Rewrite(Rewrite(def)).nodes[k] == Rewrite(def).nodes[k]
  {
    var r := Rewrite(def);
    forall g ensures g in Gates(r) <==> g in Gates(def) && !Inserted(Gates(def), g) { DecisionKept(def, g); }
    RewriteNodes(def, k);
    RewriteNodes(r, k);
    if k in def.nodes { RedirectTwice(Gates(def), Gates(r), def.nodes[k].edges); }
  }

  /** The rewrite is idempotent, on every definition. */
  lemma RewriteTwice(def: Definition)
    ensures Rewrite(Rewrite(def)) == Rewrite(def)
  {
    forall k
      ensures k in Rewrite(Rewrite(def)).nodes <==> k in Rewrite(def).nodes
      ensures k in Rewrite(def).nodes ==> Rewrite(Rewrite(def)).nodes[k] == Rewrite(def).nodes[k]
    {
      RewriteTwiceAt(def, k);
    }
    assert Rewrite(Rewrite(def)).nodes == Rewrite(def).nodes;
  }

  // ---------- Which nodes keep their meaning when names clash ----------

  /** The node keeps its type and its conditions, in order. */
  predicate KeepsMeaning(def: Definition, k: NodeId)
    requires k in def.nodes
  {
    && k in Rewrite(def).nodes
    && Rewrite(def).nodes[k].nodeType == def.nodes[k].nodeType
    && Conditions(Rewrite(def).nodes[k]) == Conditions(def.nodes[k])
  }

  /** A node loses its meaning exactly when it sits on the decision name of a gate and is not itself
      a user task with one unconditional edge. */
  lemma MeaningKeptExactly(def: Definition, k: NodeId)
    requires k in def.nodes
    ensures KeepsMeaning(def, k) <==>
            (Inserted(Gates(def), k) ==> def.nodes[k].nodeType == UserTask && Conditions(def.nodes[k]) == [None])
  {
    RewriteNodes(def, k);
    if Inserted(Gates(def), k) {
      assert Conditions(DecisionNode(GateOf(k))) == [None];
    } else {
      assert Conditions(Rewrite(def).nodes[k]) == Conditions(def.nodes[k]);
    }
  }
}
