/**
 Rewrite and search composed (engine_def_store.rs with routes/process/mod.rs): the instance page loads
 the rewritten definition and asks for choices at a waiting user task. Each decision is asked at its
 own gateway's decision task, completely, and nowhere else.
 */
module DecisionChoices {
  import opened Wrappers
  import opened Text
  import opened ProcessModel
  import opened GatewayConditions
  import opened DecisionTasks
  import opened DecisionMeaning
  import opened GatewayChoices

  /** The pairs on the gateway's own edges, as drawn. */
  ghost predicate OwnPair(def: Definition, g: NodeId, k: string, v: string) {
    g in def.nodes && exists e :: e in def.nodes[g].edges && AsksPair(e, k, v)
  }

  ghost predicate OwnBroken(def: Definition, g: NodeId) {
    g in def.nodes && exists e :: e in def.nodes[g].edges && Malformed(e)
  }

  /** What the page gets for a node: the decision task of g asks exactly what g branches on, or fails
      exactly if g has a condition that cannot be read; every other node asks nothing. */
  ghost predicate AsksOwnDecision(def: Definition, n: NodeId, r: Result<Option<seq<GatewayChoice>>, SearchError>) {
    if IsDecisionName(n) && GateOf(n) in Gates(def) then
      match r
      case Failure(Unparseable(g, _)) => g == GateOf(n) && OwnBroken(def, g)
      case Success(Some(cs)) =>
        !OwnBroken(def, GateOf(n)) && cs != [] && Lists(cs, (k, v) => OwnPair(def, GateOf(n), k, v))
      case _ => false
    else r == Success(None)
  }

  /** A deciding gateway is ahead of its own decision task only. */
  lemma AheadOfOwnTaskOnly(def: Definition, n: NodeId, g: NodeId)
    requires CleanIds(def) && Reached(Rewrite(def), n, g) && g in Gates(Rewrite(def))
    ensures n == DecisionId(g) && g in Gates(def)
  {
    var r := Rewrite(def);
    GuardedExactly(def);
    assert !exists a, b :: Bypass(def, a, b);
    DecisionKept(def, g);
    var w :| GatewayWalk(r, n, w) && w[|w| - 1] == g;
    if |w| == 1 {
      assert Linked(r, n, g);
    } else {
      assert Hop(r, w, |w| - 2);
      var p := w[|w| - 2];
      assert Linked(r, p, g);
      assert p == DecisionId(g);
      DecisionIdNames(g);
      RewriteNodes(def, p);
      assert false;
    }
  }

  lemma ConditionalDecides(def: Definition, g: NodeId, e: Edge)
    requires IsGateway(def, g) && e in def.nodes[g].edges && Conditional(e)
    ensures g in Gates(def)
  {
    assert Branches(e.condition);
  }

  /** Ahead of the decision task of g, the conditional edges are the edges of g. */
  lemma AheadIsOwn(def: Definition, g: NodeId, h: NodeId, e: Edge)
    requires CleanIds(def) && g in Gates(def) && Conditional(e)
    ensures Ahead(Rewrite(def), DecisionId(g), h, e) <==> h == g && e in Rewrite(def).nodes[g].edges
  {
    var r, d := Rewrite(def), DecisionId(g);
    DecisionIdNames(g);
    RewriteNodes(def, g);
    if Ahead(r, d, h, e) {
      ConditionalDecides(r, h, e);
      AheadOfOwnTaskOnly(def, d, h);
      DecisionIdNames(h);
    }
    if h == g && e in r.nodes[g].edges {
      RewriteNodes(def, d);
      assert Edge(g, None) in r.nodes[d].edges;
      ReachedStart(r, d, g);
    }
  }

  /** At its decision task, a gateway's own pairs are asked. */
  lemma OwnPairsAsked(def: Definition, g: NodeId, k: string, v: string)
    requires CleanIds(def) && g in Gates(def)
    ensures Asks(Rewrite(def), DecisionId(g), k, v) <==> OwnPair(def, g, k, v)
  {
    var r, d := Rewrite(def), DecisionId(g);
    RewriteNodes(def, g);
    if Asks(r, d, k, v) {
      var h, e :| Ahead(r, d, h, e) && AsksPair(e, k, v);
      AheadIsOwn(def, g, h, e);
      var f := DrawnEdge(def, g, e);
      assert AsksPair(f, k, v);
    }
    if OwnPair(def, g, k, v) {
      var f :| f in def.nodes[g].edges && AsksPair(f, k, v);
      RewrittenEdge(def, g, f);
      var e := Redirect(Gates(def), f);
      AheadIsOwn(def, g, g, e);
      assert AsksPair(e, k, v);
    }
  }

  /** And its own broken conditions are met. */
  lemma OwnBrokenMet(def: Definition, g: NodeId)
    requires CleanIds(def) && g in Gates(def)
    ensures Broken(Rewrite(def), DecisionId(g)) <==> OwnBroken(def, g)
  {
    var r, d := Rewrite(def), DecisionId(g);
    RewriteNodes(def, g);
    if Broken(r, d) {
      var h, e :| Ahead(r, d, h, e) && Malformed(e);
      AheadIsOwn(def, g, h, e);
      var f := DrawnEdge(def, g, e);
      assert Malformed(f);
    }
    if OwnBroken(def, g) {
      var f :| f in def.nodes[g].edges && Malformed(f);
      RewrittenEdge(def, g, f);
      var e := Redirect(Gates(def), f);
      AheadIsOwn(def, g, g, e);
      assert Malformed(e);
    }
  }

  /** A deciding gateway asks something or is broken. */
  lemma GateAsksOrBreaks(def: Definition, g: NodeId)
    requires g in Gates(def)
    ensures OwnBroken(def, g) || exists k, v :: OwnPair(def, g, k, v)
  {
    var e :| e in def.nodes[g].edges && Branches(e.condition);
    var p := ParseEdgeCondition(e.condition.value);
    if p.None? {
      assert Malformed(e);
    } else {
      assert AsksPair(e, p.value.0, p.value.1);
      assert OwnPair(def, g, p.value.0, p.value.1);
    }
  }

  lemma AnswersAtDecision(def: Definition, g: NodeId, r: Result<Option<seq<GatewayChoice>>, SearchError>)
    requires CleanIds(def) && g in Gates(def) && Answers(Rewrite(def), DecisionId(g), r)
    ensures AsksOwnDecision(def, DecisionId(g), r)
  {
    var d, n := Rewrite(def), DecisionId(g);
    DecisionIdNames(g);
    RewriteNodes(def, n);
    OwnBrokenMet(def, g);
    GateAsksOrBreaks(def, g);
    forall k, v ensures Asks(d, n, k, v) <==> OwnPair(def, g, k, v) { OwnPairsAsked(def, g, k, v); }
    match r
    case Success(Some(cs)) => ListsSame(cs, (k, v) => Asks(d, n, k, v), (k, v) => OwnPair(def, g, k, v));
    case Failure(Unparseable(h, e)) => AheadIsOwn(def, g, h, e);
    case _ =>
  }

  lemma AnswersElsewhere(def: Definition, n: NodeId, r: Result<Option<seq<GatewayChoice>>, SearchError>)
    requires CleanIds(def) && n in Rewrite(def).nodes && !Inserted(Gates(def), n) && Answers(Rewrite(def), n, r)
    ensures r == Success(None)
  {
    var d := Rewrite(def);
    forall g, e | Ahead(d, n, g, e) ensures !Conditional(e) {
      if Conditional(e) {
        ConditionalDecides(d, g, e);
        AheadOfOwnTaskOnly(def, n, g);
        DecisionIdNames(g);
      }
    }
    if r.Success? && r.value.Some? {
      SomeAsks(d, n, r.value.value);
    }
  }

  /** Every exact answer over the rewritten definition asks each decision at its own gateway. */
  lemma AnswersAskOwnDecision(def: Definition, n: NodeId, r: Result<Option<seq<GatewayChoice>>, SearchError>)
    requires CleanIds(def) && n in Rewrite(def).nodes && Answers(Rewrite(def), n, r)
    ensures AsksOwnDecision(def, n, r)
  {
    if Inserted(Gates(def), n) {
      GateOfInverts(n);
      AnswersAtDecision(def, GateOf(n), r);
    } else {
      AnswersElsewhere(def, n, r);
    }
  }

  /** The instance page: load the stored definition with its decision tasks, then search from the node. */
  method ChoicesOnPage(stored: Definition, n: NodeId)
    returns (loaded: Definition, r: Result<Option<seq<GatewayChoice>>, SearchError>)
    ensures loaded == Rewrite(stored)
    ensures n !in loaded.nodes ==> r == Failure(NodeNotFound(n))
    ensures CleanIds(stored) && n in loaded.nodes ==> AsksOwnDecision(stored, n, r)
  {
    loaded := InsertDecisionTasks(stored);
    r := GatewayChoicesAfter(loaded, n);
    if CleanIds(stored) && n in loaded.nodes {
      AnswersAskOwnDecision(stored, n, r);
    }
  }
}
