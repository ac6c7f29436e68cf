/**
 * Where the builder routes pending edges: the frontier a construct receives is
 * resolved into its first node, a WHILE's body exits return to the While node,
 * a REPEAT's body exits reach its RepeatCondition node, and an IF's two
 * outgoing edges survive as long as no BREAK relabels the True edge.
 */
module CfgRouting {
  import opened Wrappers
  import opened Syntax
  import opened OpTree
  import opened CfgGraph
  import opened CfgSteps
  import opened CfgSpec
  import opened CfgProofs

  // ---------------------------------------------------------------------------
  // The incoming frontier

  /** Appending a statement touches no successor slot. */
  lemma AddStatementKeepsResolved(g: Graph, idx: nat, s: Option<OpNode>, f: Frontier, target: nat)
    requires idx < |g.nodes| && ResolvedInto(g.nodes, f, target)
    ensures ResolvedInto(AddStatement(g, idx, s).nodes, f, target)
  {
  }

  /** Opening a construct resolves the incoming frontier into the new node. */
  lemma OpenResolves(g: Graph, kind: NodeKind, flow: Frontier)
    requires GraphOk(g) && SourcesIn(flow, |g.nodes|) && kind != Entry && kind != Exit
    ensures ResolvedInto(Link(NewNode(g, kind), flow, |g.nodes|).nodes, flow, |g.nodes|)
  {
    var at := |g.nodes|;
    OpenConstruct(g, kind, flow);
    ResolveAllResolves(g.nodes, flow, at);
    ResolvedAgree(ResolveAll(g.nodes, flow, at), Link(NewNode(g, kind), flow, at).nodes, flow, at, at);
  }

  /**
   * IF, WHILE and REPEAT open a node at the first free position and resolve
   * every pending edge they receive into it; nothing later in the construct
   * touches the earlier nodes again.
   */
  lemma ConstructResolvesIncoming(t: Tree, g: Graph, flow: Frontier)
    requires GraphOk(g) && SourcesIn(flow, |g.nodes|) && Processable(t)
    requires t.text == "IF" || t.text == "WHILE" || t.text == "REPEAT"
    ensures ResolvedInto(Stmt(t, g, flow).g.nodes, flow, |g.nodes|)
  {
    if t.text == "IF" {
      IfResolvesIncoming(t, g, flow);
    } else if t.text == "WHILE" {
      WhileResolvesIncoming(t, g, flow);
    } else {
      RepeatResolvesIncoming(t, g, flow);
    }
  }

  lemma IfResolvesIncoming(t: Tree, g: Graph, flow: Frontier)
    requires GraphOk(g) && SourcesIn(flow, |g.nodes|) && Processable(t) && t.text == "IF"
    ensures ResolvedInto(IfStmt(t, g, flow).g.nodes, flow, |g.nodes|)
  {
    var at := |g.nodes|;
    var g1 := Link(NewNode(g, If), flow, at);
    OpenConstruct(g, If, flow);
    OpenResolves(g, If, flow);
    IfLoopInv(t, |t.children|, g1, at, false);
    ResolvedAgree(g1.nodes, IfStmt(t, g, flow).g.nodes, flow, at, at);
  }

  lemma WhileResolvesIncoming(t: Tree, g: Graph, flow: Frontier)
    requires GraphOk(g) && SourcesIn(flow, |g.nodes|) && Processable(t) && t.text == "WHILE"
    ensures ResolvedInto(WhileStmt(t, g, flow).g.nodes, flow, |g.nodes|)
  {
    var at := |g.nodes|;
    var g1 := Link(NewNode(g, While), flow, at);
    OpenConstruct(g, While, flow);
    OpenResolves(g, While, flow);
    WhileLoopInv(t, |t.children|, g1, at, false);
    ResolvedAgree(g1.nodes, WhileStmt(t, g, flow).g.nodes, flow, at, at);
  }

  lemma RepeatResolvesIncoming(t: Tree, g: Graph, flow: Frontier)
    requires GraphOk(g) && SourcesIn(flow, |g.nodes|) && Processable(t) && t.text == "REPEAT"
    ensures ResolvedInto(RepeatStmt(t, g, flow).g.nodes, flow, |g.nodes|)
  {
    var at := |g.nodes|;
    var g1 := Link(NewNode(g, BasicBlock), flow, at);
    OpenConstruct(g, BasicBlock, flow);
    OpenResolves(g, BasicBlock, flow);
    RepeatLoops(t, g1, at, false);
    ResolvedAgree(g1.nodes, RepeatStmt(t, g, flow).g.nodes, flow, at, at);
  }

  // ---------------------------------------------------------------------------
  // WHILE: the body's exits return to the While node

  /** The frontier handed on by the last DO body among the first `i` children. */
  function DoExits(t: Tree, i: nat, g: Graph, at: nat): Frontier
    requires i <= |t.children| && at < |g.nodes|
    requires forall j :: 0 <= j < |t.children| && t.children[j].text == "DO" ==> Processable(t.children[j])
  {
    if i == 0 then []
    else if t.children[i - 1].text == "DO" then Stmt(t.children[i - 1], WhileLoop(t, i - 1, g, at), [Pending(at, TrueEdge)]).out
    else DoExits(t, i - 1, g, at)
  }

  /**
   * After the first `i` children, every exit of the last DO body, a BREAK's
   * relabelled edge included, has the While node as its successor: a True
   * exit in `nextConditional`, any other in `nextDefault`.
   */
  lemma {:induction false} WhileLoopsBack(t: Tree, i: nat, g: Graph, at: nat)
    requires i <= |t.children| && at < |g.nodes|
    requires forall j :: 0 <= j < |t.children| && t.children[j].text == "DO" ==> Processable(t.children[j])
    ensures ResolvedInto(WhileLoop(t, i, g, at).nodes, DoExits(t, i, g, at), at)
  {
    if i > 0 {
      var a := WhileLoop(t, i - 1, g, at);
      var c := t.children[i - 1];
      if c.text == "DO" {
        var r := Stmt(c, a, [Pending(at, TrueEdge)]);
        ResolveAllResolves(r.g.nodes, r.out, at);
      } else {
        WhileLoopsBack(t, i - 1, g, at);
        if c.text == "CONDITION" {
          AddStatementKeepsResolved(a, at, BuildOpTree(c), DoExits(t, i - 1, g, at), at);
        }
      }
    }
  }

  // ---------------------------------------------------------------------------
  // REPEAT: one RepeatCondition node per UNTIL

  /**
   * One UNTIL resolves the body's exits into a new RepeatCondition node that
   * carries the condition and whose conditional successor is the body block.
   */
  lemma AddUntilNodes(g: Graph, cond: Option<OpNode>, at: nat, bodyOut: Frontier)
    requires SourcesIn(bodyOut, |g.nodes|)
    ensures AddUntil(g, cond, at, bodyOut).nodes
         == ResolveAll(g.nodes, bodyOut, |g.nodes|) + [CfgNode(g.nextId, RepeatCondition, [cond], None, Some(at))]
  {
    var u := |g.nodes|;
    var x := CfgNode(g.nextId, RepeatCondition, [cond], None, None);
    var n0 := NewNode(g, RepeatCondition);
    assert n0.nodes == g.nodes + [CfgNode(g.nextId, RepeatCondition, [], None, None)];
    var g0 := AddStatement(n0, u, cond);
    assert [] + [cond] == [cond];
    assert g0.nodes[u] == x;
    assert g0.nodes == g.nodes + [x];
    ResolveAllAppend(g.nodes, x, bodyOut, u);
    var g1 := Link(g0, bodyOut, u);
    var rs := ResolveAll(g.nodes, bodyOut, u);
    assert g1.nodes == rs + [x];
    var up := [Pending(u, TrueEdge)];
    assert up[..0] == [];
    assert ResolveAll(g1.nodes, up, at) == g1.nodes[u := x.(nextConditional := Some(at))];
    assert (rs + [x])[u := x.(nextConditional := Some(at))] == rs + [x.(nextConditional := Some(at))];
  }

  /** The RepeatCondition nodes appended from position `lo` on, each returning to the body block. */
  ghost predicate UntilNodes(nodes: seq<CfgNode>, lo: nat, at: nat)
  {
    forall j :: lo <= j < |nodes| ==> nodes[j].kind == RepeatCondition && nodes[j].nextConditional == Some(at)
  }

  /**
   * After the first `i` children, the REPEAT routine's second loop has added
   * exactly one RepeatCondition node per UNTIL, each with the body block as
   * its conditional successor, and once there is one, the body's exits have
   * the newest as their successor.
   */
  lemma {:induction false} RepeatUntilsShape(t: Tree, i: nat, g2: Graph, at: nat, bodyOut: Frontier)
    requires i <= |t.children| && at < |g2.nodes| && SourcesIn(bodyOut, |g2.nodes|)
    ensures var r := RepeatUntils(t, i, g2, at, bodyOut);
      |r.g.nodes| == |g2.nodes| + CountLabel(t.children[..i], "UNTIL")
      && UntilNodes(r.g.nodes, |g2.nodes|, at)
      && (CountLabel(t.children[..i], "UNTIL") > 0 ==> ResolvedInto(r.g.nodes, bodyOut, |r.g.nodes| - 1))
  {
    if i > 0 {
      RepeatUntilsShape(t, i - 1, g2, at, bodyOut);
      CountLabelStep(t.children, i - 1, "UNTIL");
      var a := RepeatUntils(t, i - 1, g2, at, bodyOut);
      var c := t.children[i - 1];
      if c.text == "UNTIL" {
        UntilStepShape(a.g, BuildOpTree(c), at, bodyOut, |g2.nodes|);
      }
    }
  }

  /** One UNTIL keeps the earlier RepeatCondition nodes and adds one more. */
  lemma UntilStepShape(g: Graph, cond: Option<OpNode>, at: nat, bodyOut: Frontier, lo: nat)
    requires lo <= |g.nodes| && SourcesIn(bodyOut, lo) && UntilNodes(g.nodes, lo, at)
    ensures var h := AddUntil(g, cond, at, bodyOut);
      UntilNodes(h.nodes, lo, at) && ResolvedInto(h.nodes, bodyOut, |h.nodes| - 1)
  {
    var u := |g.nodes|;
    AddUntilNodes(g, cond, at, bodyOut);
    var rs := ResolveAll(g.nodes, bodyOut, u);
    ResolveAllSummary(g.nodes, bodyOut, u);
    forall j | lo <= j < u ensures rs[j] == g.nodes[j] {
      assert !InSources(bodyOut, j);
    }
    ResolveAllResolves(g.nodes, bodyOut, u);
    var h := AddUntil(g, cond, at, bodyOut);
    ResolvedAgree(rs, h.nodes, bodyOut, u, lo);
  }

  /**
   * The REPEAT routine's second loop over the whole children: one
   * RepeatCondition node per UNTIL after the body, each returning to the body
   * block, and the body's exits resolved into the last one.
   */
  lemma RepeatRouting(t: Tree, g: Graph, flow: Frontier)
    requires GraphOk(g) && SourcesIn(flow, |g.nodes|) && t.text == "REPEAT" && Processable(t)
    ensures ResolvedInto(RepeatStmt(t, g, flow).g.nodes, flow, |g.nodes|)
    ensures var at := |g.nodes|; var r := RepeatStmt(t, g, flow);
      var p := RepeatParts(t, |t.children|, Link(NewNode(g, BasicBlock), flow, at), at);
      |r.g.nodes| == |p.g.nodes| + CountLabel(t.children, "UNTIL")
      && UntilNodes(r.g.nodes, |p.g.nodes|, at)
      && ResolvedInto(r.g.nodes, p.out, |r.g.nodes| - 1)
  {
    RepeatResolvesIncoming(t, g, flow);
    RepeatUntilsRouting(t, g, flow);
  }

  /** The UNTIL part of `RepeatRouting`. */
  lemma RepeatUntilsRouting(t: Tree, g: Graph, flow: Frontier)
    requires SourcesIn(flow, |g.nodes|) && t.text == "REPEAT" && Processable(t)
    ensures var at := |g.nodes|; var r := RepeatStmt(t, g, flow);
      var p := RepeatParts(t, |t.children|, Link(NewNode(g, BasicBlock), flow, at), at);
      |r.g.nodes| == |p.g.nodes| + CountLabel(t.children, "UNTIL")
      && UntilNodes(r.g.nodes, |p.g.nodes|, at)
      && ResolvedInto(r.g.nodes, p.out, |r.g.nodes| - 1)
  {
    var at := |g.nodes|;
    var p := RepeatParts(t, |t.children|, Link(NewNode(g, BasicBlock), flow, at), at);
    assert HasChildLabelled(t, "UNTIL");
    assert RepeatStmt(t, g, flow) == RepeatUntils(t, |t.children|, p.g, at, p.out);
    UntilsWhole(t, p.g, at, p.out);
  }

  /** The second loop over all children of a REPEAT that has an UNTIL. */
  lemma UntilsWhole(t: Tree, g2: Graph, at: nat, bodyOut: Frontier)
    requires at < |g2.nodes| && SourcesIn(bodyOut, |g2.nodes|) && HasChildLabelled(t, "UNTIL")
    ensures var r := RepeatUntils(t, |t.children|, g2, at, bodyOut);
      |r.g.nodes| == |g2.nodes| + CountLabel(t.children, "UNTIL")
      && UntilNodes(r.g.nodes, |g2.nodes|, at)
      && ResolvedInto(r.g.nodes, bodyOut, |r.g.nodes| - 1)
  {
    RepeatUntilsShape(t, |t.children|, g2, at, bodyOut);
    ChildrenWhole(t.children);
    CountLabelPositive(t.children, "UNTIL");
  }

  // ---------------------------------------------------------------------------
  // IF: the two outgoing edges of the If node

  /**
   * No BREAK at the statement's own level: a BREAK nested in an IF, WHILE or
   * REPEAT can only relabel edges that construct made, never one the
   * statement received.
   */
  predicate NoBareBreak(t: Tree)
    decreases t
  {
    if t.text == "BREAK" then false
    else if t.text == "IF" || t.text == "WHILE" || t.text == "REPEAT" || t.text == "ASSIGN" || t.text == "EXPRESSION" then true
    else forall i :: 0 <= i < |t.children| ==> NoBareBreak(t.children[i])
  }

  /** The slot `p` fills is set, or an edge of the same sort from the same node is still pending. */
  ghost predicate SlotKept(nodes: seq<CfgNode>, p: Pending, out: Frontier)
  {
    p.source < |nodes|
    && if p.kind == TrueEdge then nodes[p.source].nextConditional.Some? || HasTrueFrom(out, p.source)
       else nodes[p.source].nextDefault.Some? || HasOtherFrom(out, p.source)
  }

  /** A slot a statement finds set stays set. */
  lemma FilledSlotKept(c: Tree, a: Flowed, p: Pending)
    requires GraphOk(a.g) && SourcesIn(a.out, |a.g.nodes|) && Processable(c) && p.source < |a.g.nodes|
    requires p.kind == TrueEdge ==> a.g.nodes[p.source].nextConditional.Some?
    requires p.kind != TrueEdge ==> a.g.nodes[p.source].nextDefault.Some?
    ensures SlotKept(Stmt(c, a.g, a.out).g.nodes, p, Stmt(c, a.g, a.out).out)
  {
    StmtStep(c, a.g, a.out, false);
    var r := Stmt(c, a.g, a.out);
    SlotKeptGrows(a.g.nodes, r.g.nodes, p, r.out);
  }

  /** A set slot stays set as the graph grows. */
  lemma SlotKeptGrows(a: seq<CfgNode>, b: seq<CfgNode>, p: Pending, out: Frontier)
    requires Grows(a, b) && SlotKept(a, p, out)
    requires p.kind == TrueEdge ==> a[p.source].nextConditional.Some?
    requires p.kind != TrueEdge ==> a[p.source].nextDefault.Some?
    ensures SlotKept(b, p, out)
  {
  }

  /**
   * Every edge a statement receives ends up in the slot of its sort, or is
   * handed on still of that sort; only a BREAK at the statement's own level
   * can turn a pending True edge into one that fills `nextDefault`.
   */
  lemma {:induction false} StmtKeepsSlot(t: Tree, g: Graph, flow: Frontier, p: Pending)
    requires GraphOk(g) && SourcesIn(flow, |g.nodes|) && Processable(t) && p in flow
    requires p.kind == TrueEdge ==> NoBareBreak(t)
    ensures SlotKept(Stmt(t, g, flow).g.nodes, p, Stmt(t, g, flow).out)
    decreases t, 2
  {
    var k :| 0 <= k < |flow| && flow[k] == p;
    var r := Stmt(t, g, flow);
    if t.text == "IF" || t.text == "WHILE" || t.text == "REPEAT" {
      ConstructResolvesIncoming(t, g, flow);
      assert flow[k].source < |r.g.nodes|;
    } else if t.text == "BREAK" {
      assert r.out[k].source == p.source && r.out[k].kind != TrueEdge;
    } else if t.text == "ASSIGN" || t.text == "EXPRESSION" {
      SimpleKeepsSlot(t, g, flow, k);
    } else {
      SeqKeepsSlot(t, |t.children|, g, flow, p);
    }
  }

  lemma SimpleKeepsSlot(t: Tree, g: Graph, flow: Frontier, k: nat)
    requires GraphOk(g) && SourcesIn(flow, |g.nodes|) && k < |flow|
    ensures SlotKept(SimpleStmt(t, g, flow).g.nodes, flow[k], SimpleStmt(t, g, flow).out)
  {
    var p := flow[k];
    var r := SimpleStmt(t, g, flow);
    if |flow| == 1 && g.nodes[flow[0].source].kind == BasicBlock {
      assert r.out[k] == p;
    } else {
      var b := |g.nodes|;
      var g1 := Link(NewNode(g, BasicBlock), flow, b);
      OpenConstruct(g, BasicBlock, flow);
      ResolveAllResolves(g.nodes, flow, b);
      assert g1.nodes[p.source] == ResolveAll(g.nodes, flow, b)[p.source];
      assert r.g.nodes[p.source] == g1.nodes[p.source];
    }
  }

  lemma {:induction false} SeqKeepsSlot(t: Tree, i: nat, g: Graph, flow: Frontier, p: Pending)
    requires i <= |t.children| && GraphOk(g) && SourcesIn(flow, |g.nodes|) && p in flow
    requires forall j :: 0 <= j < |t.children| ==> Processable(t.children[j])
    requires p.kind == TrueEdge ==> forall j :: 0 <= j < |t.children| ==> NoBareBreak(t.children[j])
    ensures SlotKept(SeqStmt(t, i, g, flow).g.nodes, p, SeqStmt(t, i, g, flow).out)
    decreases t, 1, i
  {
    if i == 0 {
      var k :| 0 <= k < |flow| && flow[k] == p;
    } else {
      SeqKeepsSlot(t, i - 1, g, flow, p);
      SeqStep(t, i - 1, g, flow, false);
      var a := SeqStmt(t, i - 1, g, flow);
      NextKeepsSlot(t.children[i - 1], a, p);
    }
  }

  /** One more statement of a sequence keeps a slot that the sequence so far has kept. */
  lemma NextKeepsSlot(c: Tree, a: Flowed, p: Pending)
    requires GraphOk(a.g) && SourcesIn(a.out, |a.g.nodes|) && Processable(c)
    requires p.kind == TrueEdge ==> NoBareBreak(c)
    requires SlotKept(a.g.nodes, p, a.out)
    ensures SlotKept(Stmt(c, a.g, a.out).g.nodes, p, Stmt(c, a.g, a.out).out)
    decreases c, 3
  {
    var filled := if p.kind == TrueEdge then a.g.nodes[p.source].nextConditional.Some?
                  else a.g.nodes[p.source].nextDefault.Some?;
    if filled {
      FilledSlotKept(c, a, p);
    } else if p.kind == TrueEdge {
      var k :| 0 <= k < |a.out| && a.out[k].source == p.source && a.out[k].kind == TrueEdge;
      StmtKeepsSlot(c, a.g, a.out, a.out[k]);
    } else {
      var k :| 0 <= k < |a.out| && a.out[k].source == p.source && a.out[k].kind != TrueEdge;
      StmtKeepsSlot(c, a.g, a.out, a.out[k]);
    }
  }

  /** The If node's slots after the first `i` children: each branch seen so far has kept its edge. */
  ghost predicate IfSlots(t: Tree, i: nat, at: nat, a: IfAcc)
    requires i <= |t.children|
  {
    at < |a.g.nodes|
    && (CountLabel(t.children[..i], "THEN") > 0 ==> a.g.nodes[at].nextConditional.Some? || HasTrueFrom(a.thenOut, at))
    && (a.elsePresent ==> a.g.nodes[at].nextDefault.Some? || HasOtherFrom(a.elseOut, at))
  }

  lemma {:induction false} IfSlotsLoop(t: Tree, i: nat, g1: Graph, at: nat)
    requires i <= |t.children| && GraphOk(g1) && at + 1 == |g1.nodes|
    requires g1.nodes[at].kind == If && NewClosed(at, g1.nodes)
    requires forall j :: 0 <= j < |t.children| && IsBranchLabel(t.children[j].text) ==> Processable(t.children[j])
    requires forall j :: 0 <= j < |t.children| && t.children[j].text == "THEN" ==> NoBareBreak(t.children[j])
    ensures IfSlots(t, i, at, IfLoop(t, i, g1, at))
  {
    if i == 0 {
      assert t.children[..0] == [];
    } else {
      IfSlotsLoop(t, i - 1, g1, at);
      var c := t.children[i - 1];
      if c.text == "THEN" || c.text == "ELSE" {
        IfBranchSlots(t, i, g1, at);
      } else {
        CountLabelStep(t.children, i - 1, "THEN");
      }
    }
  }

  /** A THEN keeps the True edge and leaves the ELSE's slot set; an ELSE the other way round. */
  lemma IfBranchSlots(t: Tree, i: nat, g1: Graph, at: nat)
    requires 0 < i <= |t.children| && GraphOk(g1) && at + 1 == |g1.nodes|
    requires forall j :: 0 <= j < |t.children| && IsBranchLabel(t.children[j].text) ==> Processable(t.children[j])
    requires forall j :: 0 <= j < |t.children| && t.children[j].text == "THEN" ==> NoBareBreak(t.children[j])
    requires g1.nodes[at].kind == If && NewClosed(at, g1.nodes)
    requires t.children[i - 1].text == "THEN" || t.children[i - 1].text == "ELSE"
    requires IfSlots(t, i - 1, at, IfLoop(t, i - 1, g1, at))
    ensures IfSlots(t, i, at, IfLoop(t, i, g1, at))
  {
    IfLoopInv(t, i - 1, g1, at, false);
    CountLabelStep(t.children, i - 1, "THEN");
    var a := IfLoop(t, i - 1, g1, at);
    BranchKeepsSlots(a, t.children[i - 1], at, CountLabel(t.children[..i - 1], "THEN") > 0);
  }

  /** The slot property of one branch step, over the accumulator it starts from. */
  lemma BranchKeepsSlots(a: IfAcc, c: Tree, at: nat, thenSeen: bool)
    requires GraphOk(a.g) && at < |a.g.nodes| && Processable(c)
    requires c.text == "THEN" || c.text == "ELSE"
    requires c.text == "THEN" ==> NoBareBreak(c)
    requires thenSeen ==> a.g.nodes[at].nextConditional.Some? || HasTrueFrom(a.thenOut, at)
    requires a.elsePresent ==> a.g.nodes[at].nextDefault.Some? || HasOtherFrom(a.elseOut, at)
    ensures var p := Pending(at, if c.text == "THEN" then TrueEdge else FalseEdge);
      var r := Stmt(c, a.g, [p]);
      var b := if c.text == "THEN" then IfAcc(r.g, r.out, a.elseOut, a.elsePresent) else IfAcc(r.g, a.thenOut, r.out, true);
      at < |b.g.nodes|
      && (thenSeen || c.text == "THEN" ==> b.g.nodes[at].nextConditional.Some? || HasTrueFrom(b.thenOut, at))
      && (b.elsePresent ==> b.g.nodes[at].nextDefault.Some? || HasOtherFrom(b.elseOut, at))
  {
    var p := Pending(at, if c.text == "THEN" then TrueEdge else FalseEdge);
    StmtStep(c, a.g, [p], false);
    StmtKeepsSlot(c, a.g, [p], p);
    var r := Stmt(c, a.g, [p]);
    assert Grows(a.g.nodes, r.g.nodes);
  }

  /**
   * After an IF, the If node's True edge is in `nextConditional` or still
   * pending as a True edge, and its False edge in `nextDefault` or still
   * pending, whenever no THEN part has a BREAK at its own level.
   */
  lemma IfTwoSlots(t: Tree, g: Graph, flow: Frontier)
    requires GraphOk(g) && SourcesIn(flow, |g.nodes|) && t.text == "IF" && Processable(t)
    requires forall j :: 0 <= j < |t.children| && t.children[j].text == "THEN" ==> NoBareBreak(t.children[j])
    ensures var r := IfStmt(t, g, flow); var at := |g.nodes|;
      (r.g.nodes[at].nextConditional.Some? || HasTrueFrom(r.out, at))
      && (r.g.nodes[at].nextDefault.Some? || HasOtherFrom(r.out, at))
  {
    var at := |g.nodes|;
    var g1 := Link(NewNode(g, If), flow, at);
    OpenConstruct(g, If, flow);
    ChildrenWhole(t.children);
    CountLabelPositive(t.children, "THEN");
    IfSlotsLoop(t, |t.children|, g1, at);
    var a := IfLoop(t, |t.children|, g1, at);
    ExitsKeepSlots(a.g.nodes[at], a.thenOut, a.elseOut, a.elsePresent, at);
  }

  /** Joining the THEN exits with the ELSE exits, or with the False edge, keeps both edges pending. */
  lemma ExitsKeepSlots(n: CfgNode, thenOut: Frontier, elseOut: Frontier, elsePresent: bool, at: nat)
    requires n.nextConditional.Some? || HasTrueFrom(thenOut, at)
    requires elsePresent ==> n.nextDefault.Some? || HasOtherFrom(elseOut, at)
    ensures var out := thenOut + (if elsePresent then elseOut else [Pending(at, FalseEdge)]);
      (n.nextConditional.Some? || HasTrueFrom(out, at)) && (n.nextDefault.Some? || HasOtherFrom(out, at))
  {
    var out := thenOut + (if elsePresent then elseOut else [Pending(at, FalseEdge)]);
    if !n.nextConditional.Some? {
      var k :| 0 <= k < |thenOut| && thenOut[k].source == at && thenOut[k].kind == TrueEdge;
      assert out[k] == thenOut[k];
    }
    if !n.nextDefault.Some? {
      if elsePresent {
        var k :| 0 <= k < |elseOut| && elseOut[k].source == at && elseOut[k].kind != TrueEdge;
        assert out[|thenOut| + k] == elseOut[k];
      } else {
        assert out[|thenOut|] == Pending(at, FalseEdge);
      }
    }
  }

  /**
   * A THEN made only of BREAK relabels the If node's True edge as a Break
   * edge, which fills `nextDefault`: in `IF (x) THEN BREAK ELSE` the If node
   * (position 1, after Entry) ends with no conditional successor and Exit
   * (position 2) as its default one.
   */
  lemma ThenBreakLeavesOneSlot()
    ensures var g := BuildSpec(ThenBreakBlock(), 0);
      |g.nodes| == 3 && g.nodes[1].kind == If
      && g.nodes[1].nextConditional.None? && g.nodes[1].nextDefault == Some(2)
  {
    var block := ThenBreakBlock();
    var g0 := NewNode(Graph([], [], 0), Entry);
    var flow := [Pending(0, ClassicEdge)];
    ThenBreakIf(g0, flow);
    BlockIsItsIf(block, g0, flow);
    var s := Stmt(block, g0, flow);
    ExitTakesBothEdges(s.g, s.out);
  }

  /** A block of one statement is that statement. */
  lemma BlockIsItsIf(block: Tree, g0: Graph, flow: Frontier)
    requires block == ThenBreakBlock() && SourcesIn(flow, |g0.nodes|)
    ensures Stmt(block, g0, flow) == IfStmt(block.children[0], g0, flow)
  {
    assert SeqStmt(block, 1, g0, flow) == Stmt(block.children[0], g0, flow);
  }

  /** Closing with Exit at position 2: both pending edges of node 1 fill its default slot. */
  lemma ExitTakesBothEdges(s: Graph, out: Frontier)
    requires |s.nodes| == 2 && s.nodes[1].kind == If && s.nodes[1].nextConditional.None?
    requires out == [Pending(1, BreakEdge), Pending(1, FalseEdge)]
    ensures var g := Link(NewNode(s, Exit), out, 2);
      |g.nodes| == 3 && g.nodes[1].kind == If
      && g.nodes[1].nextConditional.None? && g.nodes[1].nextDefault == Some(2)
  {
    var h := NewNode(s, Exit);
    ResolveAllEffect(h.nodes, out, 2, 1);
    assert !HasTrueFrom(out, 1);
    assert out[0].source == 1 && out[0].kind != TrueEdge;
  }

  /** The IF of `ThenBreakBlock` after Entry: two nodes, and both of the If node's edges pending as non-True edges. */
  lemma ThenBreakIf(g0: Graph, flow: Frontier)
    requires g0 == NewNode(Graph([], [], 0), Entry) && flow == [Pending(0, ClassicEdge)]
    ensures var s := IfStmt(ThenBreakBlock().children[0], g0, flow);
      |s.g.nodes| == 2 && s.g.nodes[1].kind == If
      && s.g.nodes[1].nextConditional.None? && s.g.nodes[1].nextDefault.None?
      && s.out == [Pending(1, BreakEdge), Pending(1, FalseEdge)]
  {
    var ifT := ThenBreakBlock().children[0];
    ThenBreakLinked(g0, flow);
    ThenBreakBranches(ifT, Link(NewNode(g0, If), flow, 1));
  }

  /** Entry, then the If node at position 1 with Entry's pending edge resolved into it. */
  lemma ThenBreakLinked(g0: Graph, flow: Frontier)
    requires g0 == NewNode(Graph([], [], 0), Entry) && flow == [Pending(0, ClassicEdge)]
    ensures var g1 := Link(NewNode(g0, If), flow, 1);
      |g1.nodes| == 2 && g1.nodes[1] == CfgNode(1, If, [], None, None)
  {
    var e0 := CfgNode(0, Entry, [], None, None);
    var i0 := CfgNode(1, If, [], None, None);
    assert NewNode(g0, If).nodes == [e0, i0];
    assert flow[..0] == [];
    assert ResolveAll([e0, i0], flow, 1) == [e0.(nextDefault := Some(1)), i0];
  }

  /** CONDITION, THEN BREAK and an empty ELSE over that If node: no node is added and both edges stay pending. */
  lemma ThenBreakBranches(ifT: Tree, g1: Graph)
    requires ifT == ThenBreakBlock().children[0]
    requires |g1.nodes| == 2 && g1.nodes[1] == CfgNode(1, If, [], None, None)
    ensures var a := IfLoop(ifT, 3, g1, 1);
      |a.g.nodes| == 2 && a.g.nodes[1].kind == If
      && a.g.nodes[1].nextConditional.None? && a.g.nodes[1].nextDefault.None?
      && a.thenOut == [Pending(1, BreakEdge)] && a.elseOut == [Pending(1, FalseEdge)] && a.elsePresent
  {
    var h := AddStatement(g1, 1, BuildOpTree(ifT.children[0]));
    ThenBreakCondition(ifT, g1);
    ThenBreakThen(ifT, g1, h);
    ThenBreakElse(ifT, g1, h);
  }

  /** The CONDITION only adds its statement to the If node. */
  lemma ThenBreakCondition(ifT: Tree, g1: Graph)
    requires ifT == ThenBreakBlock().children[0]
    requires |g1.nodes| == 2 && g1.nodes[1] == CfgNode(1, If, [], None, None)
    ensures var h := AddStatement(g1, 1, BuildOpTree(ifT.children[0]));
      IfLoop(ifT, 1, g1, 1) == IfAcc(h, [], [], false)
      && |h.nodes| == 2 && h.nodes[1].kind == If
      && h.nodes[1].nextConditional.None? && h.nodes[1].nextDefault.None?
  {
  }

  /** THEN BREAK turns the True edge into a Break edge. */
  lemma ThenBreakThen(ifT: Tree, g1: Graph, h: Graph)
    requires ifT == ThenBreakBlock().children[0] && |g1.nodes| == 2 && |h.nodes| == 2
    requires IfLoop(ifT, 1, g1, 1) == IfAcc(h, [], [], false)
    ensures IfLoop(ifT, 2, g1, 1) == IfAcc(h, [Pending(1, BreakEdge)], [], false)
  {
    BreakOnly(ifT.children[1], h, 1);
  }

  /** The empty ELSE hands the False edge on. */
  lemma ThenBreakElse(ifT: Tree, g1: Graph, h: Graph)
    requires ifT == ThenBreakBlock().children[0] && |g1.nodes| == 2 && |h.nodes| == 2
    requires IfLoop(ifT, 2, g1, 1) == IfAcc(h, [Pending(1, BreakEdge)], [], false)
    ensures IfLoop(ifT, 3, g1, 1) == IfAcc(h, [Pending(1, BreakEdge)], [Pending(1, FalseEdge)], true)
  {
    EmptySequence(ifT.children[2], h, [Pending(1, FalseEdge)]);
  }

  /** A sequence holding only BREAK relabels the one pending edge it receives. */
  lemma BreakOnly(t: Tree, h: Graph, at: nat)
    requires t == Tree("THEN", [Tree("BREAK", [])]) && at < |h.nodes|
    ensures Stmt(t, h, [Pending(at, TrueEdge)]) == Flowed(h, [Pending(at, BreakEdge)])
  {
    var f := [Pending(at, TrueEdge)];
    assert f[..0] == [];
    assert BreakFlow(f) == [Pending(at, BreakEdge)];
    assert SeqStmt(t, 0, h, f) == Flowed(h, f);
  }

  /** An empty sequence hands its frontier on untouched. */
  lemma EmptySequence(t: Tree, h: Graph, f: Frontier)
    requires t == Tree("ELSE", []) && SourcesIn(f, |h.nodes|)
    ensures Stmt(t, h, f) == Flowed(h, f)
  {
  }

  /** `IF (x) THEN BREAK ELSE` as the whole statement block. */
  function ThenBreakBlock(): (r: Tree)
    ensures Processable(r)
  {
    var ifT := Tree("IF", [Tree("CONDITION", [Tree("x", [])]), Tree("THEN", [Tree("BREAK", [])]), Tree("ELSE", [])]);
    assert ifT.children[1].text == "THEN";
    Tree("BLOCK", [ifT])
  }
}
