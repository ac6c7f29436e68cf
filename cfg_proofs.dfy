/**
 * What the CFG builder guarantees, proved about the functions of `CfgSpec`:
 * every statement keeps the arena valid, only appends edges and nodes, and
 * satisfies the step relation of `CfgSteps`; each construct lays out its own
 * nodes as the builder's routines describe.
 */
module CfgProofs {
  import opened Wrappers
  import opened Syntax
  import opened OpTree
  import opened CfgGraph
  import opened CfgSteps
  import opened CfgSpec

  ghost predicate GraphOk(g: Graph)
  {
    Arena(g.nodes, g.edges, g.nextId - |g.nodes|)
  }

  /** `h` is a valid continuation of `g`: same first id, edges appended, and one step. */
  ghost predicate Evolves(g: Graph, h: Graph, flow: Frontier, out: Frontier, shaped: bool)
  {
    GraphOk(h) && h.nextId - |h.nodes| == g.nextId - |g.nodes| && g.edges <= h.edges
    && Step(g.nodes, h.nodes, flow, out, shaped)
  }

  lemma EvolvesTrans(a: Graph, b: Graph, c: Graph, f: Frontier, g: Frontier, h: Frontier, s1: bool, s2: bool)
    requires Evolves(a, b, f, g, s1) && Evolves(b, c, g, h, s2)
    ensures Evolves(a, c, f, h, s1 && s2)
  {
    StepTrans(a.nodes, b.nodes, c.nodes, f, g, h, s1, s2);
  }

  lemma {:induction false} EdgesForEnds(f: Frontier, target: nat, bound: nat)
    requires SourcesIn(f, bound)
    ensures forall e :: e in EdgesFor(f, target) ==> e.from < bound && e.to == target
  {
    if f != [] {
      EdgesForEnds(f[..|f| - 1], target, bound);
    }
  }

  /** Resolving into an existing node keeps the arena valid. */
  lemma LinkOk(g: Graph, f: Frontier, target: nat)
    requires GraphOk(g) && SourcesIn(f, |g.nodes|) && target < |g.nodes|
    ensures GraphOk(Link(g, f, target))
  {
    ResolveAllSummary(g.nodes, f, target);
    EdgesForEnds(f, target, |g.nodes|);
  }

  /**
   * Opening a construct: a fresh node of `kind` receives the frontier. The
   * arena stays valid, the earlier nodes are the resolved ones, the new node
   * is untouched, and every incoming edge now has a destination.
   */
  lemma OpenConstruct(g: Graph, kind: NodeKind, flow: Frontier)
    requires GraphOk(g) && SourcesIn(flow, |g.nodes|) && kind != Entry && kind != Exit
    ensures var g1 := Link(NewNode(g, kind), flow, |g.nodes|);
      GraphOk(g1) && g1.nextId - |g1.nodes| == g.nextId - |g.nodes|
      && g1.edges == g.edges + EdgesFor(flow, |g.nodes|)
      && |g1.nodes| == |g.nodes| + 1
      && g1.nodes[|g.nodes|] == CfgNode(g.nextId, kind, [], None, None)
      && (forall i :: 0 <= i < |g.nodes| ==> g1.nodes[i] == ResolveAll(g.nodes, flow, |g.nodes|)[i])
      && Grows(g.nodes, g1.nodes) && Framed(g.nodes, g1.nodes, flow)
      && (forall k :: 0 <= k < |flow| ==> HasSuccessor(g1.nodes[flow[k].source]))
      && NewClosed(|g.nodes|, g1.nodes)
  {
    OpenArena(g, kind, flow);
    OpenFrame(g, kind, flow);
  }

  lemma OpenArena(g: Graph, kind: NodeKind, flow: Frontier)
    requires GraphOk(g) && SourcesIn(flow, |g.nodes|) && kind != Entry && kind != Exit
    ensures var g1 := Link(NewNode(g, kind), flow, |g.nodes|);
      GraphOk(g1) && g1.nextId - |g1.nodes| == g.nextId - |g.nodes|
      && g1.edges == g.edges + EdgesFor(flow, |g.nodes|)
      && |g1.nodes| == |g.nodes| + 1
      && g1.nodes[|g.nodes|] == CfgNode(g.nextId, kind, [], None, None)
  {
    var g0 := NewNode(g, kind);
    var at := |g.nodes|;
    ResolveAllSummary(g0.nodes, flow, at);
    LinkOk(g0, flow, at);
  }

  lemma OpenFrame(g: Graph, kind: NodeKind, flow: Frontier)
    requires GraphOk(g) && SourcesIn(flow, |g.nodes|) && kind != Entry && kind != Exit
    ensures var g1 := Link(NewNode(g, kind), flow, |g.nodes|);
      |g1.nodes| == |g.nodes| + 1
      && (forall i :: 0 <= i < |g.nodes| ==> g1.nodes[i] == ResolveAll(g.nodes, flow, |g.nodes|)[i])
      && Grows(g.nodes, g1.nodes) && Framed(g.nodes, g1.nodes, flow)
      && (forall k :: 0 <= k < |flow| ==> HasSuccessor(g1.nodes[flow[k].source]))
      && NewClosed(|g.nodes|, g1.nodes)
  {
    var g0 := NewNode(g, kind);
    var at := |g.nodes|;
    ResolveAllSummary(g0.nodes, flow, at);
    ResolveAllAppend(g.nodes, g0.nodes[at], flow, at);
  }

  /**
   * A construct whose first node sits at `at` in `g1`: the arena is valid, the
   * id base is kept, edges were only appended, nothing below `at` changed,
   * the first node keeps its kind, and the nodes from `at` on point only among
   * themselves.
   */
  ghost predicate Region(g1: Graph, at: nat, a: Graph)
  {
    GraphOk(a) && a.nextId - |a.nodes| == g1.nextId - |g1.nodes| && g1.edges <= a.edges
    && at < |g1.nodes| <= |a.nodes| && Fixed(g1.nodes, a.nodes, at)
    && a.nodes[at].kind == g1.nodes[at].kind && NewClosed(at, a.nodes)
  }

  lemma RegionStart(g1: Graph, at: nat)
    requires GraphOk(g1) && at < |g1.nodes| && NewClosed(at, g1.nodes)
    ensures Region(g1, at, g1)
  {
  }

  lemma RegionTrans(g1: Graph, at: nat, a: Graph, b: Graph)
    requires Region(g1, at, a) && Region(a, at, b)
    ensures Region(g1, at, b)
  {
  }

  /** A statement started from one pending edge out of the construct's first node. */
  lemma RegionStep(g1: Graph, at: nat, a: Graph, r: Graph, k: EdgeKind, out: Frontier, shaped: bool)
    requires Region(g1, at, a) && Evolves(a, r, [Pending(at, k)], out, shaped)
    ensures Region(g1, at, r) && AllFrom(out, at) && SourcesIn(out, |r.nodes|)
    ensures a.nodes[at].kind != BasicBlock ==> r.nodes[at].statements == a.nodes[at].statements
    ensures forall i :: 0 <= i < |a.nodes| && HasSuccessor(a.nodes[i]) ==> HasSuccessor(r.nodes[i])
    ensures HasSuccessor(r.nodes[at]) || InSources(out, at)
    ensures shaped ==> NewCovered(|a.nodes|, r.nodes, out)
  {
    var p := Pending(at, k);
    FromSingle(p, |a.nodes|, out);
    NewClosedExtend(at, a.nodes, r.nodes);
    assert forall j :: 0 <= j < at ==> !InSources([p], j);
    assert [p][0].source == at;
  }

  /** Resolving a frontier of the region into one of its nodes. */
  lemma RegionLink(g1: Graph, at: nat, a: Graph, f: Frontier, target: nat)
    requires Region(g1, at, a) && SourcesIn(f, |a.nodes|) && AllFrom(f, at) && at <= target < |a.nodes|
    ensures Region(g1, at, Link(a, f, target)) && |Link(a, f, target).nodes| == |a.nodes|
    ensures forall i :: 0 <= i < |a.nodes| ==>
      Link(a, f, target).nodes[i].kind == a.nodes[i].kind
      && Link(a, f, target).nodes[i].statements == a.nodes[i].statements
    ensures forall i :: 0 <= i < |a.nodes| && (HasSuccessor(a.nodes[i]) || InSources(f, i)) ==>
      HasSuccessor(Link(a, f, target).nodes[i])
  {
    LinkRegion(a, f, target, at);
  }

  /** Appending a statement to the construct's first node. */
  lemma RegionAddStatement(g1: Graph, at: nat, a: Graph, st: Option<OpNode>)
    requires Region(g1, at, a)
    ensures Region(g1, at, AddStatement(a, at, st))
    ensures forall i :: 0 <= i < |a.nodes| ==> HasSuccessor(AddStatement(a, at, st).nodes[i]) == HasSuccessor(a.nodes[i])
    ensures AddStatement(a, at, st).nodes[at].statements == a.nodes[at].statements + [st]
  {
  }

  /**
   * Resolving a frontier that leaves only nodes from `lo` on, into a node from
   * `lo` on: the arena stays valid, nothing below `lo` changes, the region
   * stays closed, and every source of the frontier now has a successor.
   */
  lemma LinkRegion(g: Graph, f: Frontier, target: nat, lo: nat)
    requires GraphOk(g) && SourcesIn(f, |g.nodes|) && AllFrom(f, lo) && lo <= target < |g.nodes|
    requires NewClosed(lo, g.nodes)
    ensures var h := Link(g, f, target);
      GraphOk(h) && h.nextId == g.nextId && |h.nodes| == |g.nodes| && g.edges <= h.edges
      && Fixed(g.nodes, h.nodes, lo) && NewClosed(lo, h.nodes)
      && (forall i :: 0 <= i < |g.nodes| ==>
            h.nodes[i].kind == g.nodes[i].kind && h.nodes[i].statements == g.nodes[i].statements)
      && (forall i :: 0 <= i < |g.nodes| && (HasSuccessor(g.nodes[i]) || InSources(f, i)) ==> HasSuccessor(h.nodes[i]))
  {
    LinkOk(g, f, target);
    ResolveAllSummary(g.nodes, f, target);
    assert forall i :: 0 <= i < lo ==> !InSources(f, i);
    forall i | 0 <= i < |g.nodes| && InSources(f, i) ensures HasSuccessor(Link(g, f, target).nodes[i]) {
      var k :| 0 <= k < |f| && f[k].source == i;
    }
  }

  /**
   * Closing a construct opened at `|g.nodes|` in `g1`: if the region it grew
   * hands on edges from the region only, the whole construct is one step.
   */
  lemma CloseConstruct(g: Graph, g1: Graph, h: Graph, flow: Frontier, out: Frontier, shaped: bool)
    requires GraphOk(g) && SourcesIn(flow, |g.nodes|)
    requires |g1.nodes| == |g.nodes| + 1
    requires g1.nextId - |g1.nodes| == g.nextId - |g.nodes| && g.edges <= g1.edges
    requires Grows(g.nodes, g1.nodes) && Framed(g.nodes, g1.nodes, flow)
    requires forall k :: 0 <= k < |flow| ==> HasSuccessor(g1.nodes[flow[k].source])
    requires Region(g1, |g.nodes|, h)
    requires SourcesIn(out, |h.nodes|) && AllFrom(out, |g.nodes|)
    requires shaped ==> NewCovered(|g.nodes|, h.nodes, out)
    ensures Evolves(g, h, flow, out, shaped)
  {
    GrowsFixed(g.nodes, g1.nodes, h.nodes);
  }

  // ---------------------------------------------------------------------------
  // Every statement is a step

  /**
   * Every statement is a step that keeps the arena valid; when `shaped` (the
   * statement is well shaped), none of its new nodes is left without a
   * successor except through the frontier it hands on.
   */
  lemma {:induction false} StmtStep(t: Tree, g: Graph, flow: Frontier, shaped: bool)
    requires GraphOk(g) && SourcesIn(flow, |g.nodes|) && Processable(t)
    requires shaped ==> WellShaped(t)
    ensures Evolves(g, Stmt(t, g, flow).g, flow, Stmt(t, g, flow).out, shaped)
    decreases t, 2, 0
  {
    if t.text == "IF" {
      IfStep(t, g, flow, shaped);
    } else if t.text == "WHILE" {
      WhileStep(t, g, flow, shaped);
    } else if t.text == "REPEAT" {
      RepeatStep(t, g, flow, shaped);
    } else if t.text == "BREAK" {
      StepBreak(g.nodes, flow);
    } else if t.text == "ASSIGN" || t.text == "EXPRESSION" {
      SimpleStep(t, g, flow);
    } else {
      SeqStep(t, |t.children|, g, flow, shaped);
    }
  }

  lemma {:induction false} SeqStep(t: Tree, i: nat, g: Graph, flow: Frontier, shaped: bool)
    requires i <= |t.children| && GraphOk(g) && SourcesIn(flow, |g.nodes|)
    requires forall j :: 0 <= j < |t.children| ==> Processable(t.children[j])
    requires shaped ==> forall j :: 0 <= j < i ==> WellShaped(t.children[j])
    ensures Evolves(g, SeqStmt(t, i, g, flow).g, flow, SeqStmt(t, i, g, flow).out, shaped)
    decreases t, 1, i
  {
    if i == 0 {
      StepIdle(g.nodes, flow);
    } else {
      var p := SeqStmt(t, i - 1, g, flow);
      SeqStep(t, i - 1, g, flow, shaped);
      StmtStep(t.children[i - 1], p.g, p.out, shaped);
      var r := Stmt(t.children[i - 1], p.g, p.out);
      EvolvesTrans(g, p.g, r.g, flow, p.out, r.out, shaped, shaped);
    }
  }

  lemma SimpleStep(t: Tree, g: Graph, flow: Frontier)
    requires GraphOk(g) && SourcesIn(flow, |g.nodes|)
    ensures Evolves(g, SimpleStmt(t, g, flow).g, flow, SimpleStmt(t, g, flow).out, true)
  {
    var r := SimpleStmt(t, g, flow);
    if |flow| == 1 && g.nodes[flow[0].source].kind == BasicBlock {
      assert InSources(r.out, flow[0].source);
    } else {
      var at := |g.nodes|;
      OpenConstruct(g, BasicBlock, flow);
      var g1 := Link(NewNode(g, BasicBlock), flow, at);
      var g2 := AddStatement(g1, at, BuildOpTree(t));
      assert r.g == g2;
      RegionAddStatement(g1, at, g1, BuildOpTree(t));
      assert r.out[0].source == at;
      CloseConstruct(g, g1, r.g, flow, r.out, true);
    }
  }

  // ---------------------------------------------------------------------------
  // IF

  /** Children `[..i]` of an IF seen so far kept its branch shape. */
  ghost predicate IfPrefixShaped(t: Tree, i: nat)
    requires i <= |t.children|
  {
    CountLabel(t.children[..i], "THEN") <= 1 && CountLabel(t.children[..i], "ELSE") <= 1
    && forall j :: 0 <= j < i && IsBranchLabel(t.children[j].text) ==> WellShaped(t.children[j])
  }

  /** Every node after the If node has a successor or leaves through a branch's exits. */
  ghost predicate IfCovered(a: IfAcc, at: nat)
  {
    (forall j :: at < j < |a.g.nodes| ==>
       HasSuccessor(a.g.nodes[j]) || InSources(a.thenOut, j) || InSources(a.elseOut, j))
    && (at < |a.g.nodes| && a.elsePresent ==> HasSuccessor(a.g.nodes[at]) || InSources(a.elseOut, at))
  }

  /** The IF routine's loop invariant. */
  ghost predicate IfInv(t: Tree, i: nat, g1: Graph, at: nat, shaped: bool, a: IfAcc)
    requires i <= |t.children|
  {
    Region(g1, at, a.g)
    && a.g.nodes[at].statements == g1.nodes[at].statements + Conditions(t.children[..i])
    && AllFrom(a.thenOut, at) && AllFrom(a.elseOut, at)
    && (CountLabel(t.children[..i], "THEN") == 0 ==> a.thenOut == [])
    && (a.elsePresent <==> CountLabel(t.children[..i], "ELSE") > 0)
    && (!a.elsePresent ==> a.elseOut == [])
    && (shaped ==> IfCovered(a, at))
  }

  lemma {:induction false} IfLoopInv(t: Tree, i: nat, g1: Graph, at: nat, shaped: bool)
    requires i <= |t.children| && GraphOk(g1) && at + 1 == |g1.nodes|
    requires g1.nodes[at].kind == If && NewClosed(at, g1.nodes)
    requires forall j :: 0 <= j < |t.children| && IsBranchLabel(t.children[j].text) ==> Processable(t.children[j])
    requires shaped ==> IfPrefixShaped(t, i)
    ensures IfInv(t, i, g1, at, shaped, IfLoop(t, i, g1, at))
    decreases t, 0, i
  {
    if i == 0 {
      RegionStart(g1, at);
      assert g1.nodes[at].statements + [] == g1.nodes[at].statements;
    } else {
      CountLabelStep(t.children, i - 1, "THEN");
      CountLabelStep(t.children, i - 1, "ELSE");
      ChildrenPrefix(t.children, i);
      IfLoopInv(t, i - 1, g1, at, shaped);
      var a := IfLoop(t, i - 1, g1, at);
      var c := t.children[i - 1];
      if c.text == "THEN" {
        IfBranchCase(t, i, g1, at, shaped, a, TrueEdge);
      } else if c.text == "ELSE" {
        IfBranchCase(t, i, g1, at, shaped, a, FalseEdge);
      } else {
        IfOtherCase(t, i, g1, at, shaped, a);
      }
    }
  }

  /** A CONDITION child adds its tree to the If node; any other non-branch child changes nothing. */
  lemma IfOtherCase(t: Tree, i: nat, g1: Graph, at: nat, shaped: bool, a: IfAcc)
    requires 0 < i <= |t.children| && at + 1 == |g1.nodes|
    requires forall j :: 0 <= j < |t.children| && IsBranchLabel(t.children[j].text) ==> Processable(t.children[j])
    requires a == IfLoop(t, i - 1, g1, at) && IfInv(t, i - 1, g1, at, shaped, a)
    requires t.children[i - 1].text != "THEN" && t.children[i - 1].text != "ELSE"
    requires CountLabel(t.children[..i], "THEN") == CountLabel(t.children[..i - 1], "THEN")
    requires CountLabel(t.children[..i], "ELSE") == CountLabel(t.children[..i - 1], "ELSE")
    requires t.children[..i][..i - 1] == t.children[..i - 1]
    ensures IfInv(t, i, g1, at, shaped, IfLoop(t, i, g1, at))
  {
    var c := t.children[i - 1];
    if c.text == "CONDITION" {
      RegionAddStatement(g1, at, a.g, BuildOpTree(c));
      assert g1.nodes[at].statements + Conditions(t.children[..i])
          == g1.nodes[at].statements + Conditions(t.children[..i - 1]) + [BuildOpTree(c)];
    } else {
      assert Conditions(t.children[..i]) == Conditions(t.children[..i - 1]);
    }
  }

  /** One THEN (True edge) or ELSE (False edge) child keeps the IF invariant. */
  lemma {:induction false} IfBranchCase(t: Tree, i: nat, g1: Graph, at: nat, shaped: bool, a: IfAcc, k: EdgeKind)
    requires 0 < i <= |t.children| && GraphOk(g1) && at + 1 == |g1.nodes| && g1.nodes[at].kind == If
    requires forall j :: 0 <= j < |t.children| && IsBranchLabel(t.children[j].text) ==> Processable(t.children[j])
    requires shaped ==> IfPrefixShaped(t, i)
    requires a == IfLoop(t, i - 1, g1, at) && IfInv(t, i - 1, g1, at, shaped, a)
    requires (k == TrueEdge && t.children[i - 1].text == "THEN") || (k == FalseEdge && t.children[i - 1].text == "ELSE")
    requires CountLabel(t.children[..i], "THEN") == CountLabel(t.children[..i - 1], "THEN") + (if k == TrueEdge then 1 else 0)
    requires CountLabel(t.children[..i], "ELSE") == CountLabel(t.children[..i - 1], "ELSE") + (if k == FalseEdge then 1 else 0)
    requires t.children[..i][..i - 1] == t.children[..i - 1]
    ensures IfInv(t, i, g1, at, shaped, IfLoop(t, i, g1, at))
    decreases t, 0, i - 1
  {
    var c := t.children[i - 1];
    var p := Pending(at, k);
    StmtStep(c, a.g, [p], shaped);
    var r := Stmt(c, a.g, [p]);
    RegionStep(g1, at, a.g, r.g, k, r.out, shaped);
    var b := IfLoop(t, i, g1, at);
    if shaped {
      forall j | at < j < |b.g.nodes|
        ensures HasSuccessor(b.g.nodes[j]) || InSources(b.thenOut, j) || InSources(b.elseOut, j)
      {
        if j < |a.g.nodes| {
          assert HasSuccessor(a.g.nodes[j]) || InSources(a.thenOut, j) || InSources(a.elseOut, j);
        }
      }
    }
  }

  lemma {:induction false} IfStep(t: Tree, g: Graph, flow: Frontier, shaped: bool)
    requires GraphOk(g) && SourcesIn(flow, |g.nodes|) && t.text == "IF" && Processable(t)
    requires shaped ==> WellShaped(t)
    ensures Evolves(g, IfStmt(t, g, flow).g, flow, IfStmt(t, g, flow).out, shaped)
    decreases t, 1, 0
  {
    var at := |g.nodes|;
    var g1 := Link(NewNode(g, If), flow, at);
    OpenConstruct(g, If, flow);
    ChildrenWhole(t.children);
    IfLoopInv(t, |t.children|, g1, at, shaped);
    var a := IfLoop(t, |t.children|, g1, at);
    var r := IfStmt(t, g, flow);
    if shaped {
      IfExitsCover(a, at, r.out);
    }
    CloseConstruct(g, g1, r.g, flow, r.out, shaped);
  }

  /** After the loop, every node from the If node on has a successor or leaves through the IF's exits. */
  lemma IfExitsCover(a: IfAcc, at: nat, out: Frontier)
    requires IfCovered(a, at) && at < |a.g.nodes| && (!a.elsePresent ==> a.elseOut == [])
    requires out == a.thenOut + (if a.elsePresent then a.elseOut else [Pending(at, FalseEdge)])
    ensures forall j :: at <= j < |a.g.nodes| ==> HasSuccessor(a.g.nodes[j]) || InSources(out, j)
  {
    var tail := if a.elsePresent then a.elseOut else [Pending(at, FalseEdge)];
    forall j | at <= j < |a.g.nodes| ensures HasSuccessor(a.g.nodes[j]) || InSources(out, j) {
      InSourcesConcat(a.thenOut, tail, j);
      if !a.elsePresent { assert tail[0].source == at; }
    }
  }

  // ---------------------------------------------------------------------------
  // WHILE

  ghost predicate WhileInv(t: Tree, i: nat, g1: Graph, at: nat, shaped: bool, a: Graph)
    requires i <= |t.children|
  {
    Region(g1, at, a)
    && a.nodes[at].statements == g1.nodes[at].statements + Conditions(t.children[..i])
    && (CountLabel(t.children[..i], "DO") > 0 ==> HasSuccessor(a.nodes[at]))
    && (shaped ==> forall j :: at < j < |a.nodes| ==> HasSuccessor(a.nodes[j]))
  }

  lemma {:induction false} WhileLoopInv(t: Tree, i: nat, g1: Graph, at: nat, shaped: bool)
    requires i <= |t.children| && GraphOk(g1) && at + 1 == |g1.nodes|
    requires g1.nodes[at].kind == While && NewClosed(at, g1.nodes)
    requires forall j :: 0 <= j < |t.children| && t.children[j].text == "DO" ==> Processable(t.children[j])
    requires shaped ==> forall j :: 0 <= j < |t.children| && t.children[j].text == "DO" ==> WellShaped(t.children[j])
    ensures WhileInv(t, i, g1, at, shaped, WhileLoop(t, i, g1, at))
    decreases t, 0, i
  {
    if i == 0 {
      RegionStart(g1, at);
      assert g1.nodes[at].statements + [] == g1.nodes[at].statements;
    } else {
      CountLabelStep(t.children, i - 1, "DO");
      ChildrenPrefix(t.children, i);
      WhileLoopInv(t, i - 1, g1, at, shaped);
      var a := WhileLoop(t, i - 1, g1, at);
      var c := t.children[i - 1];
      if c.text == "DO" {
        WhileBodyCase(t, i, g1, at, shaped);
      } else {
        WhileOtherCase(t, i, g1, at, shaped);
      }
    }
  }

  /** A CONDITION child adds its tree to the While node; any other non-DO child changes nothing. */
  lemma WhileOtherCase(t: Tree, i: nat, g1: Graph, at: nat, shaped: bool)
    requires 0 < i <= |t.children| && at + 1 == |g1.nodes|
    requires forall j :: 0 <= j < |t.children| && t.children[j].text == "DO" ==> Processable(t.children[j])
    requires t.children[i - 1].text != "DO"
    requires WhileInv(t, i - 1, g1, at, shaped, WhileLoop(t, i - 1, g1, at))
    requires CountLabel(t.children[..i], "DO") == CountLabel(t.children[..i - 1], "DO")
    requires t.children[..i][..i - 1] == t.children[..i - 1]
    ensures WhileInv(t, i, g1, at, shaped, WhileLoop(t, i, g1, at))
  {
    var a := WhileLoop(t, i - 1, g1, at);
    var c := t.children[i - 1];
    if c.text == "CONDITION" {
      RegionAddStatement(g1, at, a, BuildOpTree(c));
      assert g1.nodes[at].statements + Conditions(t.children[..i])
          == g1.nodes[at].statements + Conditions(t.children[..i - 1]) + [BuildOpTree(c)];
    } else {
      assert Conditions(t.children[..i]) == Conditions(t.children[..i - 1]);
    }
  }

  /** A DO child: its body starts from the True edge and all its exits return to the While node. */
  lemma {:induction false} WhileBodyCase(t: Tree, i: nat, g1: Graph, at: nat, shaped: bool)
    requires 0 < i <= |t.children| && GraphOk(g1) && at + 1 == |g1.nodes| && g1.nodes[at].kind == While
    requires forall j :: 0 <= j < |t.children| && t.children[j].text == "DO" ==> Processable(t.children[j])
    requires t.children[i - 1].text == "DO" && (shaped ==> WellShaped(t.children[i - 1]))
    requires WhileInv(t, i - 1, g1, at, shaped, WhileLoop(t, i - 1, g1, at))
    requires CountLabel(t.children[..i], "DO") == CountLabel(t.children[..i - 1], "DO") + 1
    requires t.children[..i][..i - 1] == t.children[..i - 1]
    ensures WhileInv(t, i, g1, at, shaped, WhileLoop(t, i, g1, at))
    decreases t, 0, i - 1
  {
    var a := WhileLoop(t, i - 1, g1, at);
    var c := t.children[i - 1];
    StmtStep(c, a, [Pending(at, TrueEdge)], shaped);
    var r := Stmt(c, a, [Pending(at, TrueEdge)]);
    RegionStep(g1, at, a, r.g, TrueEdge, r.out, shaped);
    RegionLink(g1, at, r.g, r.out, at);
    var b := Link(r.g, r.out, at);
    if shaped {
      forall j | at < j < |b.nodes| ensures HasSuccessor(b.nodes[j]) {
        if j < |a.nodes| { assert HasSuccessor(a.nodes[j]); }
        assert HasSuccessor(r.g.nodes[j]) || InSources(r.out, j);
      }
    }
  }

  lemma {:induction false} WhileStep(t: Tree, g: Graph, flow: Frontier, shaped: bool)
    requires GraphOk(g) && SourcesIn(flow, |g.nodes|) && t.text == "WHILE" && Processable(t)
    requires shaped ==> WellShaped(t)
    ensures Evolves(g, WhileStmt(t, g, flow).g, flow, WhileStmt(t, g, flow).out, shaped)
    decreases t, 1, 0
  {
    var at := |g.nodes|;
    var g1 := Link(NewNode(g, While), flow, at);
    OpenConstruct(g, While, flow);
    WhileLoopInv(t, |t.children|, g1, at, shaped);
    var r := WhileStmt(t, g, flow);
    assert r.out[0].source == at;
    CloseConstruct(g, g1, r.g, flow, r.out, shaped);
  }

  // ---------------------------------------------------------------------------
  // REPEAT

  ghost predicate PartsPrefixShaped(t: Tree, i: nat)
    requires i <= |t.children|
  {
    CountLabel(t.children[..i], "REPEATABLE_PART") <= 1
    && forall j :: 0 <= j < i && t.children[j].text == "REPEATABLE_PART" ==> WellShaped(t.children[j])
  }

  /** The body block and everything after it has a successor or is a pending body exit. */
  ghost predicate BodyCovered(a: Flowed, at: nat, started: bool)
  {
    (forall j :: at < j < |a.g.nodes| ==> HasSuccessor(a.g.nodes[j]) || InSources(a.out, j))
    && (started && at < |a.g.nodes| ==> HasSuccessor(a.g.nodes[at]) || InSources(a.out, at))
  }

  ghost predicate PartsInv(t: Tree, i: nat, g1: Graph, at: nat, shaped: bool, a: Flowed)
    requires i <= |t.children|
  {
    Region(g1, at, a.g) && AllFrom(a.out, at)
    && (CountLabel(t.children[..i], "REPEATABLE_PART") == 0 ==> a.out == [])
    && (shaped ==> BodyCovered(a, at, CountLabel(t.children[..i], "REPEATABLE_PART") > 0))
  }

  lemma {:induction false} PartsLoopInv(t: Tree, i: nat, g1: Graph, at: nat, shaped: bool)
    requires i <= |t.children| && GraphOk(g1) && at + 1 == |g1.nodes|
    requires g1.nodes[at].kind == BasicBlock && NewClosed(at, g1.nodes)
    requires forall j :: 0 <= j < |t.children| && t.children[j].text == "REPEATABLE_PART" ==> Processable(t.children[j])
    requires shaped ==> PartsPrefixShaped(t, i)
    ensures PartsInv(t, i, g1, at, shaped, RepeatParts(t, i, g1, at))
    decreases t, 0, i
  {
    if i == 0 {
      RegionStart(g1, at);
    } else {
      CountLabelStep(t.children, i - 1, "REPEATABLE_PART");
      ChildrenPrefix(t.children, i);
      PartsLoopInv(t, i - 1, g1, at, shaped);
      if t.children[i - 1].text == "REPEATABLE_PART" {
        PartsBodyCase(t, i, g1, at, shaped);
      }
    }
  }

  lemma {:induction false} PartsBodyCase(t: Tree, i: nat, g1: Graph, at: nat, shaped: bool)
    requires 0 < i <= |t.children| && GraphOk(g1) && at + 1 == |g1.nodes|
    requires forall j :: 0 <= j < |t.children| && t.children[j].text == "REPEATABLE_PART" ==> Processable(t.children[j])
    requires t.children[i - 1].text == "REPEATABLE_PART"
    requires shaped ==> PartsPrefixShaped(t, i)
    requires PartsInv(t, i - 1, g1, at, shaped, RepeatParts(t, i - 1, g1, at))
    requires CountLabel(t.children[..i], "REPEATABLE_PART") == CountLabel(t.children[..i - 1], "REPEATABLE_PART") + 1
    requires t.children[..i][..i - 1] == t.children[..i - 1]
    ensures PartsInv(t, i, g1, at, shaped, RepeatParts(t, i, g1, at))
    decreases t, 0, i - 1
  {
    var a := RepeatParts(t, i - 1, g1, at);
    var c := t.children[i - 1];
    StmtStep(c, a.g, [Pending(at, ClassicEdge)], shaped);
    var r := Stmt(c, a.g, [Pending(at, ClassicEdge)]);
    RegionStep(g1, at, a.g, r.g, ClassicEdge, r.out, shaped);
    if shaped {
      assert a.out == [];
      forall j | at < j < |r.g.nodes| ensures HasSuccessor(r.g.nodes[j]) || InSources(r.out, j) {
        if j < |a.g.nodes| { assert HasSuccessor(a.g.nodes[j]) || InSources(a.out, j); }
      }
    }
  }

  ghost predicate UntilsInv(t: Tree, j: nat, g2: Graph, at: nat, bodyOut: Frontier, covered: bool, a: Flowed)
    requires j <= |t.children|
  {
    Region(g2, at, a.g)
    && (LastLabelled(t.children[..j], "UNTIL").None? ==> a.g == g2 && a.out == [])
    && (LastLabelled(t.children[..j], "UNTIL").Some? ==>
          |g2.nodes| < |a.g.nodes| && a.out == [Pending(|a.g.nodes| - 1, FalseEdge)]
          && a.g.nodes[|a.g.nodes| - 1].kind == RepeatCondition
          && a.g.nodes[|a.g.nodes| - 1].nextConditional == Some(at)
          && a.g.nodes[|a.g.nodes| - 1].statements == [BuildOpTree(LastLabelled(t.children[..j], "UNTIL").value)]
          && (covered ==> forall k :: at <= k < |a.g.nodes| ==> HasSuccessor(a.g.nodes[k])))
  }

  lemma {:induction false} UntilsLoopInv(t: Tree, j: nat, g2: Graph, at: nat, bodyOut: Frontier, covered: bool)
    requires j <= |t.children| && GraphOk(g2) && at < |g2.nodes|
    requires NewClosed(at, g2.nodes)
    requires SourcesIn(bodyOut, |g2.nodes|) && AllFrom(bodyOut, at)
    requires covered ==> BodyCovered(Flowed(g2, bodyOut), at, true)
    ensures UntilsInv(t, j, g2, at, bodyOut, covered, RepeatUntils(t, j, g2, at, bodyOut))
  {
    if j == 0 {
      RegionStart(g2, at);
    } else {
      UntilsLoopInv(t, j - 1, g2, at, bodyOut, covered);
      ChildrenPrefix(t.children, j);
      if t.children[j - 1].text == "UNTIL" {
        UntilStepCase(t, j, g2, at, bodyOut, covered);
      } else {
        UntilOtherCase(t, j, g2, at, bodyOut, covered);
      }
    }
  }

  /** A child other than UNTIL leaves the second loop's state as it was. */
  lemma UntilOtherCase(t: Tree, j: nat, g2: Graph, at: nat, bodyOut: Frontier, covered: bool)
    requires 0 < j <= |t.children| && at < |g2.nodes| && SourcesIn(bodyOut, |g2.nodes|)
    requires t.children[j - 1].text != "UNTIL" && t.children[..j][..j - 1] == t.children[..j - 1]
    requires UntilsInv(t, j - 1, g2, at, bodyOut, covered, RepeatUntils(t, j - 1, g2, at, bodyOut))
    ensures UntilsInv(t, j, g2, at, bodyOut, covered, RepeatUntils(t, j, g2, at, bodyOut))
  {
    assert LastLabelled(t.children[..j], "UNTIL") == LastLabelled(t.children[..j - 1], "UNTIL");
  }

  /** An UNTIL child keeps the second loop's invariant. */
  lemma UntilStepCase(t: Tree, j: nat, g2: Graph, at: nat, bodyOut: Frontier, covered: bool)
    requires 0 < j <= |t.children| && GraphOk(g2) && at < |g2.nodes|
    requires SourcesIn(bodyOut, |g2.nodes|) && AllFrom(bodyOut, at)
    requires covered ==> BodyCovered(Flowed(g2, bodyOut), at, true)
    requires t.children[j - 1].text == "UNTIL" && t.children[..j][..j - 1] == t.children[..j - 1]
    requires UntilsInv(t, j - 1, g2, at, bodyOut, covered, RepeatUntils(t, j - 1, g2, at, bodyOut))
    ensures UntilsInv(t, j, g2, at, bodyOut, covered, RepeatUntils(t, j, g2, at, bodyOut))
  {
    var a := RepeatUntils(t, j - 1, g2, at, bodyOut);
    UntilCase(t, j, g2, at, bodyOut, covered, a);
    RepeatUntilsStep(t, j, g2, at, bodyOut);
  }

  lemma UntilCase(t: Tree, j: nat, g2: Graph, at: nat, bodyOut: Frontier, covered: bool, a: Flowed)
    requires 0 < j <= |t.children| && GraphOk(g2) && at < |g2.nodes|
    requires SourcesIn(bodyOut, |g2.nodes|) && AllFrom(bodyOut, at)
    requires covered ==> BodyCovered(Flowed(g2, bodyOut), at, true)
    requires t.children[j - 1].text == "UNTIL" && t.children[..j][..j - 1] == t.children[..j - 1]
    requires UntilsInv(t, j - 1, g2, at, bodyOut, covered, a)
    ensures SourcesIn(bodyOut, |a.g.nodes|)
    ensures var h := AddUntil(a.g, BuildOpTree(t.children[j - 1]), at, bodyOut);
      UntilsInv(t, j, g2, at, bodyOut, covered, Flowed(h, [Pending(|h.nodes| - 1, FalseEdge)]))
  {
    var c := t.children[j - 1];
    LastLabelledAt(t.children, j, "UNTIL");
    if covered {
      UntilsCovered(t, j - 1, g2, at, bodyOut, a);
    }
    var cond := BuildOpTree(c);
    UntilStepInv(g2, at, bodyOut, covered, a.g, cond);
    var h := AddUntil(a.g, cond, at, bodyOut);
    UntilsInvAfter(t, j, g2, at, bodyOut, covered, Flowed(h, [Pending(|h.nodes| - 1, FalseEdge)]), c);
  }

  /** An UNTIL child adds one RepeatCondition node, whose False edge is the only exit. */
  lemma RepeatUntilsStep(t: Tree, j: nat, g2: Graph, at: nat, bodyOut: Frontier)
    requires 0 < j <= |t.children| && at < |g2.nodes| && SourcesIn(bodyOut, |g2.nodes|)
    requires t.children[j - 1].text == "UNTIL"
    ensures var a := RepeatUntils(t, j - 1, g2, at, bodyOut);
      var h := AddUntil(a.g, BuildOpTree(t.children[j - 1]), at, bodyOut);
      RepeatUntils(t, j, g2, at, bodyOut) == Flowed(h, [Pending(|h.nodes| - 1, FalseEdge)])
  {
  }

  /** The second loop's invariant, read off a state whose last node is the newest UNTIL's. */
  lemma UntilsInvAfter(t: Tree, j: nat, g2: Graph, at: nat, bodyOut: Frontier, covered: bool, r: Flowed, c: Tree)
    requires j <= |t.children| && LastLabelled(t.children[..j], "UNTIL") == Some(c)
    requires Region(g2, at, r.g) && |g2.nodes| < |r.g.nodes| && r.out == [Pending(|r.g.nodes| - 1, FalseEdge)]
    requires r.g.nodes[|r.g.nodes| - 1].kind == RepeatCondition && r.g.nodes[|r.g.nodes| - 1].nextConditional == Some(at)
    requires r.g.nodes[|r.g.nodes| - 1].statements == [BuildOpTree(c)]
    requires covered ==> forall k :: at <= k < |r.g.nodes| ==> HasSuccessor(r.g.nodes[k])
    ensures UntilsInv(t, j, g2, at, bodyOut, covered, r)
  {
  }

  /** One UNTIL node added after the body region keeps the region and, when covered, every successor. */
  lemma UntilStepInv(g2: Graph, at: nat, bodyOut: Frontier, covered: bool, g: Graph, cond: Option<OpNode>)
    requires GraphOk(g2) && at < |g2.nodes| && SourcesIn(bodyOut, |g2.nodes|) && AllFrom(bodyOut, at)
    requires Region(g2, at, g)
    requires covered ==> forall k :: at <= k < |g.nodes| ==> HasSuccessor(g.nodes[k]) || InSources(bodyOut, k)
    ensures var h := AddUntil(g, cond, at, bodyOut);
      Region(g2, at, h) && |g2.nodes| < |h.nodes|
      && h.nodes[|h.nodes| - 1].kind == RepeatCondition && h.nodes[|h.nodes| - 1].nextConditional == Some(at)
      && h.nodes[|h.nodes| - 1].statements == [cond]
      && (covered ==> forall k :: at <= k < |h.nodes| ==> HasSuccessor(h.nodes[k]))
  {
    AddUntilFacts(g, cond, at, bodyOut);
    RegionTrans(g2, at, g, AddUntil(g, cond, at, bodyOut));
    if covered {
      UntilAllSucceed(g, cond, at, bodyOut);
    }
  }

  /** When every node from `at` on had a successor or was a body exit, after the UNTIL every one has a successor. */
  lemma UntilAllSucceed(g: Graph, cond: Option<OpNode>, at: nat, bodyOut: Frontier)
    requires GraphOk(g) && at < |g.nodes| && SourcesIn(bodyOut, |g.nodes|) && AllFrom(bodyOut, at)
    requires NewClosed(at, g.nodes)
    requires forall k :: at <= k < |g.nodes| ==> HasSuccessor(g.nodes[k]) || InSources(bodyOut, k)
    ensures forall k :: at <= k < |AddUntil(g, cond, at, bodyOut).nodes| ==> HasSuccessor(AddUntil(g, cond, at, bodyOut).nodes[k])
  {
    AddUntilFacts(g, cond, at, bodyOut);
  }

  /** The last of the first `j` children, when it carries `l`, is the last one labelled `l`. */
  lemma LastLabelledAt(cs: seq<Tree>, j: nat, l: string)
    requires 0 < j <= |cs| && cs[j - 1].text == l
    ensures LastLabelled(cs[..j], l) == Some(cs[j - 1])
  {
    assert cs[..j][j - 1] == cs[j - 1];
  }

  /** Before an UNTIL, every node from the body block on has a successor or is a body exit. */
  lemma UntilsCovered(t: Tree, j: nat, g2: Graph, at: nat, bodyOut: Frontier, a: Flowed)
    requires j <= |t.children| && at < |g2.nodes| && BodyCovered(Flowed(g2, bodyOut), at, true)
    requires UntilsInv(t, j, g2, at, bodyOut, true, a)
    ensures forall k :: at <= k < |a.g.nodes| ==> HasSuccessor(a.g.nodes[k]) || InSources(bodyOut, k)
  {
    if LastLabelled(t.children[..j], "UNTIL").None? {
      forall k | at <= k < |a.g.nodes| ensures HasSuccessor(a.g.nodes[k]) || InSources(bodyOut, k) {
        assert HasSuccessor(g2.nodes[k]) || InSources(bodyOut, k);
      }
    }
  }

  /** What one UNTIL does to the graph. */
  lemma AddUntilFacts(g: Graph, cond: Option<OpNode>, at: nat, bodyOut: Frontier)
    requires GraphOk(g) && at < |g.nodes| && SourcesIn(bodyOut, |g.nodes|) && AllFrom(bodyOut, at)
    requires NewClosed(at, g.nodes)
    ensures var h := AddUntil(g, cond, at, bodyOut); var u := |g.nodes|;
      Region(g, at, h)
      && h.nodes[u].kind == RepeatCondition && h.nodes[u].nextConditional == Some(at)
      && h.nodes[u].statements == [cond]
      && (forall k :: at <= k < u && (HasSuccessor(g.nodes[k]) || InSources(bodyOut, k)) ==> HasSuccessor(h.nodes[k]))
  {
    var u := |g.nodes|;
    var g1 := Link(AddStatement(NewNode(g, RepeatCondition), u, cond), bodyOut, u);
    var up := [Pending(u, TrueEdge)];
    UntilFirstLink(g, cond, at, bodyOut);
    assert up[0].source == u;
    LinkRegion(g1, up, at, at);
    RegionTrans(g, at, g1, Link(g1, up, at));
    UntilNodeLoops(g1, at, u);
  }

  /** The UNTIL node with its condition, receiving the body's exits. */
  lemma UntilFirstLink(g: Graph, cond: Option<OpNode>, at: nat, bodyOut: Frontier)
    requires GraphOk(g) && at < |g.nodes| && SourcesIn(bodyOut, |g.nodes|) && AllFrom(bodyOut, at)
    requires NewClosed(at, g.nodes)
    ensures var u := |g.nodes|; var g1 := Link(AddStatement(NewNode(g, RepeatCondition), u, cond), bodyOut, u);
      Region(g, at, g1) && |g1.nodes| == u + 1
      && g1.nodes[u].kind == RepeatCondition && g1.nodes[u].statements == [cond]
      && (forall k :: at <= k < u && (HasSuccessor(g.nodes[k]) || InSources(bodyOut, k)) ==> HasSuccessor(g1.nodes[k]))
  {
    var u := |g.nodes|;
    var g0 := AddStatement(NewNode(g, RepeatCondition), u, cond);
    assert GraphOk(g0) && NewClosed(at, g0.nodes);
    LinkRegion(g0, bodyOut, u, at);
  }

  /** Linking the UNTIL node's True edge back to the body block sets its conditional successor. */
  lemma UntilNodeLoops(g1: Graph, at: nat, u: nat)
    requires at <= u < |g1.nodes|
    ensures Link(g1, [Pending(u, TrueEdge)], at).nodes[u].nextConditional == Some(at)
  {
    var up := [Pending(u, TrueEdge)];
    ResolveAllEffect(g1.nodes, up, at, u);
    assert up[0].source == u;
    assert HasTrueFrom(up, u);
  }

  lemma {:induction false} RepeatStep(t: Tree, g: Graph, flow: Frontier, shaped: bool)
    requires GraphOk(g) && SourcesIn(flow, |g.nodes|) && t.text == "REPEAT" && Processable(t)
    requires shaped ==> WellShaped(t)
    ensures Evolves(g, RepeatStmt(t, g, flow).g, flow, RepeatStmt(t, g, flow).out, shaped)
    decreases t, 1, 0
  {
    var at := |g.nodes|;
    var g1 := Link(NewNode(g, BasicBlock), flow, at);
    OpenConstruct(g, BasicBlock, flow);
    RepeatLoops(t, g1, at, shaped);
    var r := RepeatStmt(t, g, flow);
    CloseConstruct(g, g1, r.g, flow, r.out, shaped);
  }

  /** Both loops of the REPEAT routine, from the body block `at` on. */
  lemma RepeatLoops(t: Tree, g1: Graph, at: nat, shaped: bool)
    requires GraphOk(g1) && at + 1 == |g1.nodes| && g1.nodes[at].kind == BasicBlock && NewClosed(at, g1.nodes)
    requires t.text == "REPEAT" && Processable(t) && (shaped ==> WellShaped(t))
    ensures var p := RepeatParts(t, |t.children|, g1, at);
      var r := RepeatUntils(t, |t.children|, p.g, at, p.out);
      Region(g1, at, r.g) && AllFrom(r.out, at) && (shaped ==> NewCovered(at, r.g.nodes, r.out))
    decreases t, 0, |t.children| + 2
  {
    PartsDone(t, g1, at, shaped);
    var p := RepeatParts(t, |t.children|, g1, at);
    UntilsDone(t, p.g, at, p.out, shaped);
    var r := RepeatUntils(t, |t.children|, p.g, at, p.out);
    RegionTrans(g1, at, p.g, r.g);
    assert r.out[0].source == |r.g.nodes| - 1;
  }

  /** After the first loop: the body's exits leave the region, which is covered when shaped. */
  lemma PartsDone(t: Tree, g1: Graph, at: nat, shaped: bool)
    requires GraphOk(g1) && at + 1 == |g1.nodes| && g1.nodes[at].kind == BasicBlock && NewClosed(at, g1.nodes)
    requires t.text == "REPEAT" && Processable(t) && (shaped ==> WellShaped(t))
    ensures var p := RepeatParts(t, |t.children|, g1, at);
      Region(g1, at, p.g) && AllFrom(p.out, at) && (shaped ==> BodyCovered(p, at, true))
    decreases t, 0, |t.children| + 1
  {
    ChildrenWhole(t.children);
    PartsLoopInv(t, |t.children|, g1, at, shaped);
    CountLabelPositive(t.children, "REPEATABLE_PART");
  }

  /** After the second loop: the last UNTIL's False edge is the only exit. */
  lemma UntilsDone(t: Tree, g2: Graph, at: nat, bodyOut: Frontier, covered: bool)
    requires GraphOk(g2) && at < |g2.nodes| && NewClosed(at, g2.nodes)
    requires SourcesIn(bodyOut, |g2.nodes|) && AllFrom(bodyOut, at)
    requires covered ==> BodyCovered(Flowed(g2, bodyOut), at, true)
    requires HasChildLabelled(t, "UNTIL")
    ensures var r := RepeatUntils(t, |t.children|, g2, at, bodyOut);
      Region(g2, at, r.g) && |g2.nodes| < |r.g.nodes| && r.out == [Pending(|r.g.nodes| - 1, FalseEdge)]
      && (covered ==> forall k :: at <= k < |r.g.nodes| ==> HasSuccessor(r.g.nodes[k]))
  {
    ChildrenWhole(t.children);
    CountLabelPositive(t.children, "UNTIL");
    UntilsLoopInv(t, |t.children|, g2, at, bodyOut, covered);
  }
}
