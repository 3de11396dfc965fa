/**
 Exactly which definitions keep their meaning. With clean node ids, a dangling edge that names a decision
 task comes alive in the rewritten graph. Journeys agree if and only if there is no such edge; paths
 correspond if and only if each stands beside a drawn edge to the same gate.
 */
module DecisionExact {
  import opened Wrappers
  import opened Text
  import opened ProcessModel
  import opened DecisionTasks
  import opened DecisionMeaning

  // ---------- Moves and journeys ----------

  /** Every move agrees, whatever the selection, the nodes and the variables. */
  ghost predicate AllMovesAgree(def: Definition) {
    forall sel, a, v, b, w :: FollowsPlainEdge(sel) && a in def.nodes && b in def.nodes ==>
      SameMove(def, sel, a, v, b, w)
  }

  /** The selection that takes the i-th edge where these conditions are offered. */
  function Picking(cs: seq<Option<EdgeCondition>>, i: int): Selection {
    (offered, v) => if offered == cs then i else 0
  }

  /** Where a dangling edge names the decision task of g, some selection moves along it in the executed graph only. */
  lemma DanglingMoves(def: Definition, a: NodeId, i: nat)
    requires CleanIds(def) && a in def.nodes && i < |def.nodes[a].edges|
    requires Inserted(Gates(def), def.nodes[a].edges[i].target)
    ensures !AllMovesAgree(def)
  {
    var n := def.nodes[a];
    var g := GateOf(n.edges[i].target);
    var sel := Picking(Conditions(n), i);
    GateOfInverts(n.edges[i].target);
    assert FollowsPlainEdge(sel);
    MovesOn(def, sel, a, map[], DecisionId(g));
    MovesOffDecision(def, sel, g, map[]);
    assert DecisionId(g) != g;
    assert !SameMove(def, sel, a, map[], g, map[]);
  }

  /** Every move agrees if and only if no dangling edge names a decision task. */
  lemma MovesExactly(def: Definition)
    requires CleanIds(def)
    ensures AllMovesAgree(def) <==> NoneDangling(def)
  {
    if NoneDangling(def) {
      forall sel, a, v, b, w | FollowsPlainEdge(sel) && a in def.nodes && b in def.nodes
        ensures SameMove(def, sel, a, v, b, w)
      {
        MovesThroughDecision(def, sel, a, v, b, w);
      }
    } else {
      var k :| k in def.nodes && exists e :: e in def.nodes[k].edges && Inserted(Gates(def), e.target);
      var e :| e in def.nodes[k].edges && Inserted(Gates(def), e.target);
      var i :| 0 <= i < |def.nodes[k].edges| && def.nodes[k].edges[i] == e;
      DanglingMoves(def, k, i);
    }
  }

  /** The journey along p and the one along its lift agree. */
  ghost predicate SameJourney(def: Definition, sel: Selection, p: seq<NodeId>, vs: seq<Variables>, w: nat -> Variables)
  {
    |p| == |vs| + 1 && Agree(def, sel, p, vs, Lift(Gates(def), p), LiftVariables(Gates(def), p, vs, w))
  }

  ghost predicate AllJourneysAgree(def: Definition) {
    forall sel, p, vs, w ::
      FollowsPlainEdge(sel) && |p| == |vs| + 1 && (forall i :: 0 <= i < |p| ==> p[i] in def.nodes) ==>
        SameJourney(def, sel, p, vs, w)
  }

  /** A journey of one move says what the move says. */
  lemma OneMoveJourney(def: Definition, sel: Selection, a: NodeId, v: Variables, b: NodeId, w: Variables)
    requires CleanIds(def) && a in def.nodes && b in def.nodes && SameJourney(def, sel, [a, b], [v], n => w)
    ensures SameMove(def, sel, a, v, b, w)
  {
    var gates, r := Gates(def), Rewrite(def);
    var p, vs := [a, b], [v];
    assert Front(p) == [a] && Front(vs) == [];
    assert [] + ViaVariables(gates, b, v, w) == ViaVariables(gates, b, v, w);
    var up, ups := [a] + Via(gates, b), ViaVariables(gates, b, v, w);
    assert Lift(gates, p) == up && LiftVariables(gates, p, vs, n => w) == ups;
    RewriteNodes(def, a);
    RewriteNodes(def, b);
    assert Travels(def, sel, [a], []) && Travels(r, sel, [a], []);
    TravelsSnoc(def, sel, [a], [], v, b);
    assert [a] + [b] == p && [] + [v] == vs;
    if b in gates {
      var d := DecisionId(b);
      DecisionIdNames(b);
      RewriteNodes(def, d);
      TravelsSnoc(r, sel, [a], [], v, d);
      TravelsSnoc(r, sel, [a] + [d], [] + [v], w, b);
      SnocTwice([a], d, b);
      SnocTwice([], v, w);
    } else {
      TravelsSnoc(r, sel, [a], [], v, b);
    }
  }

  /** Every journey agrees if and only if no dangling edge names a decision task. */
  lemma JourneysExactly(def: Definition)
    requires CleanIds(def)
    ensures AllJourneysAgree(def) <==> NoneDangling(def)
  {
    if NoneDangling(def) {
      forall sel, p, vs, w | FollowsPlainEdge(sel) && |p| == |vs| + 1
        && (forall i :: 0 <= i < |p| ==> p[i] in def.nodes)
        ensures SameJourney(def, sel, p, vs, w)
      {
        JourneysAgree(def, sel, p, vs, w);
      }
    }
    if AllJourneysAgree(def) {
      forall sel, a, v, b, w: Variables | FollowsPlainEdge(sel) && a in def.nodes && b in def.nodes
        ensures SameMove(def, sel, a, v, b, w)
      {
        assert SameJourney(def, sel, [a, b], [v], n => w);
        OneMoveJourney(def, sel, a, v, b, w);
      }
      MovesExactly(def);
    }
  }

  // ---------- Paths ----------

  predicate BetweenOriginals(q: seq<NodeId>) {
    q != [] && !IsDecisionName(q[0]) && !IsDecisionName(Last(q))
  }

  /** Every rewritten path between original nodes erases to an original path. */
  ghost predicate AllErase(def: Definition) {
    forall q :: BetweenOriginals(q) && IsPath(Rewrite(def), q) ==> IsPath(def, Erase(q))
  }

  ghost predicate AllCorrespond(def: Definition) {
    forall p, q :: BetweenOriginals(q) ==> Correspond(def, p, q)
  }

  /** A dangling edge at the decision name of a gate, whatever its condition, comes alive: the rewritten graph
      leads from a to the gate, the drawn one does not. */
  lemma DanglingEdgeComesAlive(def: Definition, a: NodeId, g: NodeId)
    requires CleanIds(def) && g in Gates(def) && LeadsTo(def, a, DecisionId(g)) && !Linked(def, a, g)
    ensures IsPath(Rewrite(def), [a, DecisionId(g), g])
    ensures Erase([a, DecisionId(g), g]) == [a, g] && !IsPath(def, [a, g])
  {
    var r, d := Rewrite(def), DecisionId(g);
    DecisionIdNames(g);
    RewriteNodes(def, a);
    ComesLinked(def, a, d);
    DecisionEdges(def, d, g);
    PathSnoc(r, [a], d);
    PathSnoc(r, [a] + [d], g);
    EraseThree(a, d, g);
    PathSnoc(def, [a], g);
    assert [a] + [g] == [a, g];
  }

  lemma EraseThree(a: NodeId, d: NodeId, g: NodeId)
    requires IsDecisionName(d) && !IsDecisionName(a) && !IsDecisionName(g)
    ensures [a] + [d] + [g] == [a, d, g] && Erase([a, d, g]) == [a, g]
  {
    EraseSnoc([], a);
    EraseSnoc([a], d);
    EraseSnoc([a] + [d], g);
    assert [] + [a] == [a] && [a] + [d] + [g] == [a, d, g];
  }

  lemma UnbackedFails(def: Definition, k: NodeId, e: Edge)
    requires CleanIds(def) && k in def.nodes && e in def.nodes[k].edges && Inserted(Gates(def), e.target)
    requires !Linked(def, k, GateOf(e.target))
    ensures !AllErase(def) && !AllCorrespond(def)
  {
    var g := GateOf(e.target);
    GateOfInverts(e.target);
    DanglingEdgeComesAlive(def, k, g);
    var q := [k, DecisionId(g), g];
    assert BetweenOriginals(q) && !IsPath(def, Erase(q));
    assert !Correspond(def, Erase(q), q);
  }

  /** Rewritten paths between original nodes erase to original ones, and lifting and erasing are inverse, if and
      only if every dangling edge to a decision name stands beside a drawn edge to its gate. */
  lemma PathsExactly(def: Definition)
    requires CleanIds(def)
    ensures AllErase(def) <==> Backed(def)
    ensures AllCorrespond(def) <==> Backed(def)
  {
    if Backed(def) {
      forall q | BetweenOriginals(q) && IsPath(Rewrite(def), q) ensures IsPath(def, Erase(q)) { EraseIsPath(def, q); }
      forall p, q | BetweenOriginals(q) ensures Correspond(def, p, q) { PathsCorrespond(def, p, q); }
    } else {
      var k :| k in def.nodes
        && exists e :: e in def.nodes[k].edges && Inserted(Gates(def), e.target) && !Linked(def, k, GateOf(e.target));
      var e :| e in def.nodes[k].edges && Inserted(Gates(def), e.target) && !Linked(def, k, GateOf(e.target));
      UnbackedFails(def, k, e);
    }
  }
}
