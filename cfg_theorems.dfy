/**
 * The shape of the graphs `buildCFG` produces, and the layout each control
 * construct leaves behind, stated on the functions of `CfgSpec` (and so, by
 * the contracts of `CfgBuilder`, on the builder's object).
 */
module CfgTheorems {
  import opened Wrappers
  import opened Syntax
  import opened OpTree
  import opened CfgGraph
  import opened CfgSteps
  import opened CfgSpec
  import opened CfgProofs
  import opened CfgRouting

  /** The statement block followed by Exit, with `shaped` selecting the coverage part. */
  lemma {:induction false} BuildFacts(block: Tree, firstId: int, shaped: bool)
    requires Processable(block) && (shaped ==> WellShaped(block))
    ensures var g := BuildSpec(block, firstId); var n := |g.nodes|;
      Arena(g.nodes, g.edges, firstId) && g.nextId == firstId + n
      && g.nodes[0].kind == Entry && HasSuccessor(g.nodes[0])
      && g.nodes[n - 1] == CfgNode(firstId + n - 1, Exit, [], None, None)
      && (forall i :: 0 < i < n - 1 ==> g.nodes[i].kind != Entry && g.nodes[i].kind != Exit)
      && (shaped ==> forall i :: 0 <= i < n - 1 ==> HasSuccessor(g.nodes[i]))
  {
    var g0 := NewNode(Graph([], [], firstId), Entry);
    var flow := [Pending(0, ClassicEdge)];
    assert GraphOk(g0);
    StmtStep(block, g0, flow, shaped);
    var s := Stmt(block, g0, flow);
    assert flow[0].source == 0;
    CloseWithExit(s.g, s.out);
  }

  /** Appending Exit and resolving the remaining frontier into it. */
  lemma CloseWithExit(s: Graph, out: Frontier)
    requires GraphOk(s) && SourcesIn(out, |s.nodes|)
    ensures var g := Link(NewNode(s, Exit), out, |s.nodes|); var m := |s.nodes|;
      GraphOk(g) && g.nextId == s.nextId + 1 && |g.nodes| == m + 1
      && g.nodes[m] == CfgNode(s.nextId, Exit, [], None, None)
      && (forall i :: 0 <= i < m ==> g.nodes[i].kind == s.nodes[i].kind)
      && (forall i :: 0 <= i < m && (HasSuccessor(s.nodes[i]) || InSources(out, i)) ==> HasSuccessor(g.nodes[i]))
  {
    var m := |s.nodes|;
    var h := NewNode(s, Exit);
    assert GraphOk(h);
    LinkOk(h, out, m);
    ResolveAllSummary(h.nodes, out, m);
    var g := Link(h, out, m);
    assert !InSources(out, m);
    forall i | 0 <= i < m && InSources(out, i) ensures HasSuccessor(g.nodes[i]) {
      var k :| 0 <= k < |out| && out[k].source == i;
    }
  }

  /**
   * `buildCFG` lays out Entry first and Exit last, numbers the nodes
   * consecutively from the first free id, keeps every slot and edge inside
   * the node list, lets no other node be an Entry or an Exit, gives Entry a
   * successor, and leaves Exit without statements or successors.
   */
  lemma BuildShape(block: Tree, firstId: int)
    requires Processable(block)
    ensures var g := BuildSpec(block, firstId); var n := |g.nodes|;
      Arena(g.nodes, g.edges, firstId) && g.nextId == firstId + n
      && g.nodes[0].kind == Entry && HasSuccessor(g.nodes[0])
      && g.nodes[n - 1] == CfgNode(firstId + n - 1, Exit, [], None, None)
      && (forall i :: 0 < i < n - 1 ==> g.nodes[i].kind != Entry && g.nodes[i].kind != Exit)
  {
    BuildFacts(block, firstId, false);
  }

  /**
   * When every IF has one THEN and at most one ELSE and every REPEAT one
   * REPEATABLE_PART, no node before Exit is a dead end: each has a successor,
   * so every path from Entry continues until it reaches Exit.
   */
  lemma BuildConnected(block: Tree, firstId: int)
    requires Processable(block) && WellShaped(block)
    ensures var g := BuildSpec(block, firstId);
      forall i :: 0 <= i < |g.nodes| - 1 ==> HasSuccessor(g.nodes[i])
  {
    BuildFacts(block, firstId, true);
  }

  /**
   * An IF becomes one If node with the next free id, holding its CONDITION
   * children's operator trees in order; every edge it receives is resolved
   * into the If node; the construct's exits all leave its own nodes, and
   * without an ELSE the If node's False edge is the last exit.
   */
  lemma IfLayout(t: Tree, g: Graph, flow: Frontier)
    requires GraphOk(g) && SourcesIn(flow, |g.nodes|) && t.text == "IF" && Processable(t)
    ensures var r := IfStmt(t, g, flow); var at := |g.nodes|;
      r.g.nodes[at].id == g.nextId && r.g.nodes[at].kind == If
      && r.g.nodes[at].statements == Conditions(t.children)
      && (forall k :: 0 <= k < |r.out| ==> r.out[k].source >= at)
      && (CountLabel(t.children, "ELSE") == 0 ==> |r.out| > 0 && r.out[|r.out| - 1] == Pending(at, FalseEdge))
      && ResolvedInto(r.g.nodes, flow, at)
  {
    IfResolvesIncoming(t, g, flow);
    var at := |g.nodes|;
    var g1 := Link(NewNode(g, If), flow, at);
    OpenConstruct(g, If, flow);
    ChildrenWhole(t.children);
    IfLoopInv(t, |t.children|, g1, at, false);
    var a := IfLoop(t, |t.children|, g1, at);
    var tail := if a.elsePresent then a.elseOut else [Pending(at, FalseEdge)];
    assert [] + Conditions(t.children) == Conditions(t.children);
    assert AllFrom(tail, at);
    AllFromConcat(a.thenOut, tail, at);
  }

  /**
   * A WHILE becomes one While node holding its CONDITION trees in order, and
   * every edge it receives is resolved into it. Its only exit is the While
   * node's False edge: every exit of the (last) DO body, `break` included, is
   * resolved back into the While node, which then has a successor. With
   * well-shaped bodies no node of the loop is a dead end.
   */
  lemma WhileLayout(t: Tree, g: Graph, flow: Frontier)
    requires GraphOk(g) && SourcesIn(flow, |g.nodes|) && t.text == "WHILE" && Processable(t)
    ensures var r := WhileStmt(t, g, flow); var at := |g.nodes|;
      r.g.nodes[at].id == g.nextId && r.g.nodes[at].kind == While
      && r.g.nodes[at].statements == Conditions(t.children)
      && r.out == [Pending(at, FalseEdge)]
      && (HasChildLabelled(t, "DO") ==> HasSuccessor(r.g.nodes[at]))
      && (WellShaped(t) ==> forall j :: at < j < |r.g.nodes| ==> HasSuccessor(r.g.nodes[j]))
      && ResolvedInto(r.g.nodes, flow, at)
      && ResolvedInto(r.g.nodes, DoExits(t, |t.children|, Link(NewNode(g, While), flow, at), at), at)
  {
    WhileResolvesIncoming(t, g, flow);
    var at := |g.nodes|;
    var g1 := Link(NewNode(g, While), flow, at);
    WhileLoopsBack(t, |t.children|, g1, at);
    OpenConstruct(g, While, flow);
    ChildrenWhole(t.children);
    var shaped := WellShaped(t);
    WhileLoopInv(t, |t.children|, g1, at, shaped);
    assert [] + Conditions(t.children) == Conditions(t.children);
    CountLabelPositive(t.children, "DO");
  }

  /**
   * The layout of a REPEAT whose body block is node `at`: the last node is a
   * RepeatCondition carrying the last UNTIL's operator tree, its True edge
   * returns to the body block, and its False edge is the construct's only exit.
   */
  ghost predicate RepeatShape(t: Tree, at: nat, r: Flowed)
  {
    LastLabelled(t.children, "UNTIL").Some?
    && at + 1 < |r.g.nodes| && r.g.nodes[at].kind == BasicBlock
    && r.out == [Pending(|r.g.nodes| - 1, FalseEdge)]
    && r.g.nodes[|r.g.nodes| - 1].kind == RepeatCondition
    && r.g.nodes[|r.g.nodes| - 1].nextConditional == Some(at)
    && r.g.nodes[|r.g.nodes| - 1].statements == [BuildOpTree(LastLabelled(t.children, "UNTIL").value)]
  }

  /**
   * A REPEAT becomes a body block with the next free id, which receives every
   * incoming edge, then the body, then exactly one RepeatCondition node per
   * UNTIL, each with the body block as its conditional successor; the body's
   * exits are resolved into the last of them, laid out as `RepeatShape` says.
   */
  lemma RepeatLayout(t: Tree, g: Graph, flow: Frontier)
    requires GraphOk(g) && SourcesIn(flow, |g.nodes|) && t.text == "REPEAT" && Processable(t)
    ensures RepeatShape(t, |g.nodes|, RepeatStmt(t, g, flow))
    ensures RepeatStmt(t, g, flow).g.nodes[|g.nodes|].id == g.nextId
    ensures ResolvedInto(RepeatStmt(t, g, flow).g.nodes, flow, |g.nodes|)
    ensures var at := |g.nodes|; var r := RepeatStmt(t, g, flow);
      var p := RepeatParts(t, |t.children|, Link(NewNode(g, BasicBlock), flow, at), at);
      |r.g.nodes| == |p.g.nodes| + CountLabel(t.children, "UNTIL")
      && UntilNodes(r.g.nodes, |p.g.nodes|, at)
      && ResolvedInto(r.g.nodes, p.out, |r.g.nodes| - 1)
  {
    var at := |g.nodes|;
    RepeatOpen(t, g, flow);
    var p := RepeatParts(t, |t.children|, Link(NewNode(g, BasicBlock), flow, at), at);
    UntilsLoopInv(t, |t.children|, p.g, at, p.out, false);
    UntilsFinal(t, p.g, at, p.out, RepeatStmt(t, g, flow));
    RepeatRouting(t, g, flow);
  }

  /** The REPEAT routine after its first loop: the body block and the body's exits. */
  lemma RepeatOpen(t: Tree, g: Graph, flow: Frontier)
    requires GraphOk(g) && SourcesIn(flow, |g.nodes|) && t.text == "REPEAT" && Processable(t)
    ensures var at := |g.nodes|;
      var p := RepeatParts(t, |t.children|, Link(NewNode(g, BasicBlock), flow, at), at);
      GraphOk(p.g) && at < |p.g.nodes| && NewClosed(at, p.g.nodes)
      && SourcesIn(p.out, |p.g.nodes|) && AllFrom(p.out, at)
      && p.g.nodes[at].kind == BasicBlock && p.g.nodes[at].id == g.nextId
  {
    var at := |g.nodes|;
    OpenConstruct(g, BasicBlock, flow);
    PartsLoopInv(t, |t.children|, Link(NewNode(g, BasicBlock), flow, at), at, false);
  }

  /** The REPEAT invariant at the end of the children, read off for any accumulator. */
  lemma UntilsFinal(t: Tree, g2: Graph, at: nat, bodyOut: Frontier, a: Flowed)
    requires GraphOk(g2) && at < |g2.nodes| && HasChildLabelled(t, "UNTIL") && g2.nodes[at].kind == BasicBlock
    requires UntilsInv(t, |t.children|, g2, at, bodyOut, false, a)
    ensures RepeatShape(t, at, a) && a.g.nodes[at].id == g2.nodes[at].id
  {
    ChildrenWhole(t.children);
    CountLabelPositive(t.children, "UNTIL");
  }
}
