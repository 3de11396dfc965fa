/**
 The active marker of the instance diagram (routes/process/mod.rs): which node of the drawn process
 is highlighted, given the rewritten definition and the tokens of the instance.
 */
module ActiveMarker {
  import opened Wrappers
  import opened Text
  import opened ProcessModel
  import opened DecisionTasks

  datatype Marker = Marker(nodeId: NodeId, text: string)

  /** Tokens on these nodes await real progress. */
  predicate Markable(n: Node) {
    n.nodeType.UserTask? || n.nodeType.ParallelJoin? || n.nodeType.ExternalTask?
  }

  predicate Qualifies(def: Definition, t: Token) {
    t.status.Waiting? && t.nodeId in def.nodes && Markable(def.nodes[t.nodeId])
  }

  function Candidates(def: Definition, tokens: seq<Token>): set<NodeId> {
    set t | t in tokens && Qualifies(def, t) :: t.nodeId
  }

  /** The marker of a candidate: a decision task is shown at its gateway. */
  function MarkerFor(c: NodeId, hidden: nat): Marker {
    match StripSuffix(c, DECISION_SUFFIX)
    case Some(g) => Marker(g, Label("Decision needed", hidden))
    case None => Marker(c, Label("Waiting", hidden))
  }

  /** The wording, and how many other candidates are hidden, if any. */
  function Label(base: string, hidden: nat): string {
    if hidden == 0 then base else base + " (+" + Decimal(hidden) + " parallel)"
  }

  ghost predicate Least(c: NodeId, cs: set<NodeId>) {
    c in cs && forall d :: d in cs && d != c ==> StrLess(c, d)
  }

  /** What the marker must be. */
  ghost predicate Marks(def: Definition, instance: ProcessInstance, r: Option<Marker>) {
    var cs := Candidates(def, instance.tokens);
    match instance.state
    case Completed =>
      (match r
       case None => forall k :: k in def.nodes ==> !def.nodes[k].nodeType.End?
       case Some(m) =>
         m.nodeId in def.nodes && def.nodes[m.nodeId].nodeType.End? && m.text == "Completed")
    case Terminated => r == None
    case Running =>
      if cs == {} then r == None
      else exists c :: Least(c, cs) && r == Some(MarkerFor(c, |cs| - 1))
  }

  lemma {:induction false} AscendingCount(xs: seq<string>)
    requires Ascending(xs)
    ensures |xs| == |set x | x in xs|
  {
    if xs == [] {
      assert (set x | x in xs) == {};
    } else {
      AscendingCount(xs[1..]);
      assert xs == [xs[0]] + xs[1..];
      TailExcludesFirst(xs, xs[0]);
      assert (set x | x in xs) == {xs[0]} + (set x | x in xs[1..]);
    }
  }

  method PickActiveMarker(def: Definition, instance: ProcessInstance) returns (r: Option<Marker>)
    ensures Marks(def, instance, r)
  {
    if instance.state.Completed? {
      var ends := set k | k in def.nodes && def.nodes[k].nodeType.End?;
      forall k | k in def.nodes ensures def.nodes[k].nodeType.End? <==> k in ends {}
      if ends == {} {
        return None;
      }
      var k :| k in ends;
      return Some(Marker(k, "Completed"));
    }
    if instance.state.Terminated? {
      return None;
    }
    var found := CollectCandidates(def, instance.tokens);
    var candidates := SortDedup(found);
    AscendingCount(candidates);
    assert (set x | x in candidates) == Candidates(def, instance.tokens);
    if candidates == [] {
      return None;
    }
    forall d | d in candidates && d != candidates[0] ensures StrLess(candidates[0], d) {
      FirstIsLeast(candidates, d);
    }
    assert candidates[0] in candidates;
    assert Least(candidates[0], Candidates(def, instance.tokens));
    r := Some(MarkerFor(candidates[0], |candidates| - 1));
  }

  method CollectCandidates(def: Definition, tokens: seq<Token>) returns (found: seq<NodeId>)
    ensures forall k :: k in found <==> k in Candidates(def, tokens)
  {
    found := [];
    for i := 0 to |tokens|
      invariant forall k :: k in found <==> k in Candidates(def, tokens[..i])
    {
      var t := tokens[i];
      assert tokens[..i + 1] == tokens[..i] + [t];
      assert Candidates(def, tokens[..i + 1])
          == Candidates(def, tokens[..i]) + if Qualifies(def, t) then {t.nodeId} else {};
      if Qualifies(def, t) {
        found := found + [t.nodeId];
      }
    }
    assert tokens[..|tokens|] == tokens;
  }

  // ---------- The marker names a node of the drawn diagram ----------

  /** Over the rewritten definition, every marker of every instance names a node of the original. */
  ghost predicate AlwaysDrawn(def: Definition) {
    forall instance, r :: Marks(Rewrite(def), instance, r) && r.Some? ==> r.value.nodeId in def.nodes
  }

  /** A waiting place whose id only looks like a decision task, with no node behind it. */
  predicate StrayName(def: Definition, k: NodeId) {
    k in def.nodes && Markable(def.nodes[k]) && IsDecisionName(k) && !Inserted(Gates(def), k) && GateOf(k) !in def.nodes
  }

  /** Exactly when markers are sound: no stray name. In particular, whenever ids are clean. */
  lemma MarkerSoundExactly(def: Definition)
    ensures AlwaysDrawn(def) <==> !exists k :: StrayName(def, k)
  {
    if k :| StrayName(def, k) {
      StrayMisleads(def, k);
    }
    if !exists k :: StrayName(def, k) {
      forall instance, r | Marks(Rewrite(def), instance, r) && r.Some? ensures r.value.nodeId in def.nodes {
        MarkerDrawn(def, instance, r);
      }
    }
  }

  lemma MarkerDrawn(def: Definition, instance: ProcessInstance, r: Option<Marker>)
    requires Marks(Rewrite(def), instance, r) && r.Some? && !exists k :: StrayName(def, k)
    ensures r.value.nodeId in def.nodes
  {
    var d := Rewrite(def);
    if instance.state.Running? {
      var c :| Least(c, Candidates(d, instance.tokens))
        && r == Some(MarkerFor(c, |Candidates(d, instance.tokens)| - 1));
      RewriteNodes(def, c);
      assert !StrayName(def, c);
    } else {
      RewriteNodes(def, r.value.nodeId);
    }
  }

  lemma StrayMisleads(def: Definition, k: NodeId)
    requires StrayName(def, k)
    ensures !AlwaysDrawn(def)
  {
    var d := Rewrite(def);
    RewriteNodes(def, k);
    var t := Token("t", k, Waiting, Forward, 0, 0, None, None);
    var instance := ProcessInstance("i", "p", None, [t], map[], Running, 0);
    assert t in instance.tokens && Qualifies(d, t);
    assert Candidates(d, instance.tokens) == {k};
    assert Least(k, Candidates(d, instance.tokens));
    var r := Some(MarkerFor(k, 0));
    assert Marks(d, instance, r) && r.value.nodeId == GateOf(k);
  }

  // ---------- What the label says ----------

  /** The label tells the wording and the count: no two wordings or counts share one. */
  lemma LabelTells(a: nat, b: nat)
    ensures Label("Waiting", a) == Label("Waiting", b) ==> a == b
    ensures Label("Decision needed", a) == Label("Decision needed", b) ==> a == b
    ensures Label("Waiting", a) != Label("Decision needed", b)
    ensures Label("Waiting", 0) == "Waiting" && Label("Decision needed", 0) == "Decision needed"
  {
    LabelCount("Waiting", a, b);
    LabelCount("Decision needed", a, b);
    assert Label("Waiting", a)[0] == 'W' && Label("Decision needed", b)[0] == 'D';
  }

  lemma LabelCount(base: string, a: nat, b: nat)
    ensures Label(base, a) == Label(base, b) ==> a == b
  {
    var la, lb := Label(base, a), Label(base, b);
    if la == lb {
      if a > 0 && b > 0 {
        assert la[|base| + 3..|la| - 10] == Decimal(a) && lb[|base| + 3..|lb| - 10] == Decimal(b);
      }
    }
  }

  /** Over the rewritten definition, with clean ids, a running instance is marked "Decision needed" at a deciding
      gateway whose decision task waits, or "Waiting" at a drawn node that waits; the others are counted. */
  lemma MarkerSays(def: Definition, instance: ProcessInstance, r: Option<Marker>)
    requires forall k :: k in def.nodes ==> !IsDecisionName(k)
    requires instance.state.Running? && Marks(Rewrite(def), instance, r) && r.Some?
    ensures var cs, m := Candidates(Rewrite(def), instance.tokens), r.value;
            || (m.nodeId in Gates(def) && Least(m.nodeId + "__decide", cs)
                && m.text == Label("Decision needed", |cs| - 1))
            || (m.nodeId in def.nodes && Least(m.nodeId, cs) && m.text == Label("Waiting", |cs| - 1))
  {
    var d := Rewrite(def);
    var cs := Candidates(d, instance.tokens);
    var c :| Least(c, cs) && r == Some(MarkerFor(c, |cs| - 1));
    RewriteNodes(def, c);
    if IsDecisionName(c) { GateOfInverts(c); }
  }

  /** A single token is marked exactly if it waits at a user task, a join or an external task. */
  lemma SingleTokenMarked(def: Definition, instance: ProcessInstance, t: Token, r: Option<Marker>)
    requires instance.state.Running? && instance.tokens == [t] && t.nodeId in def.nodes && Marks(def, instance, r)
    ensures r.Some? <==>
            t.status == Waiting && match def.nodes[t.nodeId].nodeType
                                   case UserTask => true
                                   case ParallelJoin => true
                                   case ExternalTask(_) => true
                                   case _ => false
    ensures r.Some? ==>
              r.value == if EndsWith(t.nodeId, "__decide") then Marker(t.nodeId[..|t.nodeId| - 8], "Decision needed")
                         else Marker(t.nodeId, "Waiting")
  {
    var cs := Candidates(def, instance.tokens);
    assert t in instance.tokens;
    if Qualifies(def, t) { assert cs == {t.nodeId}; } else { assert cs == {}; }
  }
}
