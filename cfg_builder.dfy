/**
 * The CFG builder as it runs: `ControlFlowGraph` owns the node and edge lists
 * that the routines grow in place, and `nextId` is the node factory's
 * process-wide id counter. Every routine is proved to leave the object in the
 * state, and to return the frontier, that the matching function of `CfgSpec`
 * computes; what those functions guarantee is proved in `CfgProofs`. The
 * routines frame only `nodes`, `edges` and `nextId`, so `entry` and `exit`
 * keep what `BuildCfg` sets.
 */
module CfgBuilder {
  import opened Wrappers
  import opened Syntax
  import opened OpTree
  import opened CfgGraph
  import opened CfgSpec
  import CfgTheorems

  class ControlFlowGraph {
    var nodes: seq<CfgNode>
    var edges: seq<CfgEdge>
    var entry: nat
    var exit: nat
    var nextId: int

    ghost function State(): Graph
      reads this
    {
      Graph(nodes, edges, nextId)
    }

    /** The arena invariant, with ids counted from the first id handed out to this graph. */
    ghost predicate Valid()
      reads this
    {
      Arena(nodes, edges, nextId - |nodes|)
    }

    constructor (firstId: int)
      ensures State() == Graph([], [], firstId) && Valid()
    {
      nodes := [];
      edges := [];
      entry := 0;
      exit := 0;
      nextId := firstId;
    }

    /** `createCFGNode` plus registration: a fresh node with the next id and empty slots. */
    method CreateNode(kind: NodeKind) returns (idx: nat)
      modifies this`nodes, this`edges, this`nextId
      ensures idx == |old(nodes)| && State() == NewNode(old(State()), kind)
    {
      idx := |nodes|;
      nodes := nodes + [CfgNode(nextId, kind, [], None, None)];
      nextId := nextId + 1;
    }

    method AppendStatement(idx: nat, s: Option<OpNode>)
      requires idx < |nodes|
      modifies this`nodes, this`edges, this`nextId
      ensures State() == AddStatement(old(State()), idx, s)
    {
      nodes := nodes[idx := nodes[idx].(statements := nodes[idx].statements + [s])];
    }

    /** Resolves the pending edges of `f` into `target`, one by one in order. */
    method Resolve(f: Frontier, target: nat)
      requires SourcesIn(f, |nodes|)
      modifies this`nodes, this`edges, this`nextId
      ensures State() == Link(old(State()), f, target)
    {
      var k := 0;
      while k < |f|
        invariant 0 <= k <= |f| && SourcesIn(f[..k], |old(nodes)|)
        invariant nodes == ResolveAll(old(nodes), f[..k], target)
        invariant edges == old(edges) + EdgesFor(f[..k], target)
        invariant nextId == old(nextId)
      {
        var p := f[k];
        var n := nodes[p.source];
        edges := edges + [CfgEdge(p.source, target, p.kind)];
        if p.kind == TrueEdge {
          nodes := nodes[p.source := n.(nextConditional := Some(target))];
        } else {
          nodes := nodes[p.source := n.(nextDefault := Some(target))];
        }
        assert f[..k + 1][..k] == f[..k];
        k := k + 1;
      }
      assert f[..|f|] == f;
    }

    /** `processStatement`: dispatch on the statement's label. */
    method ProcessStatement(t: Tree, flow: Frontier) returns (out: Frontier)
      requires SourcesIn(flow, |nodes|) && Processable(t)
      modifies this`nodes, this`edges, this`nextId
      decreases t, 2, 0
      ensures Flowed(State(), out) == Stmt(t, old(State()), flow)
    {
      if t.text == "IF" {
        out := ProcessIf(t, flow);
      } else if t.text == "WHILE" {
        out := ProcessWhile(t, flow);
      } else if t.text == "REPEAT" {
        out := ProcessRepeat(t, flow);
      } else if t.text == "BREAK" {
        out := BreakFlow(flow);
      } else if t.text == "ASSIGN" || t.text == "EXPRESSION" {
        out := ProcessSimple(t, flow);
      } else {
        out := ProcessSequence(t, flow);
      }
    }

    /** BLOCK, THEN, ELSE, DO and REPEATABLE_PART. */
    method ProcessSequence(t: Tree, flow: Frontier) returns (out: Frontier)
      requires SourcesIn(flow, |nodes|)
      requires forall j :: 0 <= j < |t.children| ==> Processable(t.children[j])
      modifies this`nodes, this`edges, this`nextId
      decreases t, 1, |t.children|
      ensures Flowed(State(), out) == SeqStmt(t, |t.children|, old(State()), flow)
    {
      out := flow;
      var i := 0;
      while i < |t.children|
        invariant 0 <= i <= |t.children|
        invariant Flowed(State(), out) == SeqStmt(t, i, old(State()), flow)
      {
        out := ProcessStatement(t.children[i], out);
        i := i + 1;
      }
    }

    /** ASSIGN and EXPRESSION. */
    method ProcessSimple(t: Tree, flow: Frontier) returns (out: Frontier)
      requires SourcesIn(flow, |nodes|)
      modifies this`nodes, this`edges, this`nextId
      ensures Flowed(State(), out) == SimpleStmt(t, old(State()), flow)
    {
      if |flow| == 1 && nodes[flow[0].source].kind == BasicBlock {
        AppendStatement(flow[0].source, BuildOpTree(t));
        out := flow;
      } else {
        var block := CreateNode(BasicBlock);
        Resolve(flow, block);
        AppendStatement(block, BuildOpTree(t));
        out := [Pending(block, ClassicEdge)];
      }
    }

    method ProcessIf(t: Tree, flow: Frontier) returns (out: Frontier)
      requires SourcesIn(flow, |nodes|) && t.text == "IF" && Processable(t)
      modifies this`nodes, this`edges, this`nextId
      decreases t, 1, 0
      ensures Flowed(State(), out) == IfStmt(t, old(State()), flow)
    {
      var at := CreateNode(If);
      Resolve(flow, at);
      ghost var g1 := State();
      var thenOut: Frontier := [];
      var elseOut: Frontier := [];
      var elsePresent := false;
      var i := 0;
      while i < |t.children|
        invariant 0 <= i <= |t.children| && at == |old(nodes)| < |g1.nodes|
        invariant g1 == Link(NewNode(old(State()), If), flow, at)
        invariant IfAcc(State(), thenOut, elseOut, elsePresent) == IfLoop(t, i, g1, at)
      {
        var c := t.children[i];
        if c.text == "CONDITION" {
          AppendStatement(at, BuildOpTree(c));
        } else if c.text == "THEN" {
          thenOut := ProcessStatement(c, [Pending(at, TrueEdge)]);
        } else if c.text == "ELSE" {
          elsePresent := true;
          elseOut := ProcessStatement(c, [Pending(at, FalseEdge)]);
        }
        i := i + 1;
      }
      out := thenOut + if elsePresent then elseOut else [Pending(at, FalseEdge)];
    }

    method ProcessWhile(t: Tree, flow: Frontier) returns (out: Frontier)
      requires SourcesIn(flow, |nodes|) && t.text == "WHILE" && Processable(t)
      modifies this`nodes, this`edges, this`nextId
      decreases t, 1, 0
      ensures Flowed(State(), out) == WhileStmt(t, old(State()), flow)
    {
      var at := CreateNode(While);
      Resolve(flow, at);
      ghost var g1 := State();
      var i := 0;
      while i < |t.children|
        invariant 0 <= i <= |t.children| && at == |old(nodes)| < |g1.nodes|
        invariant g1 == Link(NewNode(old(State()), While), flow, at)
        invariant State() == WhileLoop(t, i, g1, at)
      {
        var c := t.children[i];
        if c.text == "CONDITION" {
          AppendStatement(at, BuildOpTree(c));
        } else if c.text == "DO" {
          var bodyOut := ProcessStatement(c, [Pending(at, TrueEdge)]);
          Resolve(bodyOut, at);
        }
        i := i + 1;
      }
      out := [Pending(at, FalseEdge)];
    }

    /** One UNTIL of the REPEAT routine: its RepeatCondition node, fed by the body and looping back to `at`. */
    method AddUntilNode(cond: Option<OpNode>, at: nat, bodyOut: Frontier) returns (u: nat)
      requires at < |nodes| && SourcesIn(bodyOut, |nodes|)
      modifies this`nodes, this`edges, this`nextId
      ensures u == |old(nodes)| && State() == AddUntil(old(State()), cond, at, bodyOut)
    {
      u := CreateNode(RepeatCondition);
      AppendStatement(u, cond);
      Resolve(bodyOut, u);
      Resolve([Pending(u, TrueEdge)], at);
    }

    method ProcessRepeat(t: Tree, flow: Frontier) returns (out: Frontier)
      requires SourcesIn(flow, |nodes|) && t.text == "REPEAT" && Processable(t)
      modifies this`nodes, this`edges, this`nextId
      decreases t, 1, 0
      ensures Flowed(State(), out) == RepeatStmt(t, old(State()), flow)
    {
      var at := CreateNode(BasicBlock);
      Resolve(flow, at);
      var bodyOut := ProcessRepeatParts(t, at);
      out := ProcessUntils(t, at, bodyOut);
    }

    /** The REPEAT routine's first loop: every REPEATABLE_PART from the body block's ClassicEdge. */
    method ProcessRepeatParts(t: Tree, at: nat) returns (bodyOut: Frontier)
      requires at < |nodes|
      requires forall j :: 0 <= j < |t.children| && t.children[j].text == "REPEATABLE_PART" ==> Processable(t.children[j])
      modifies this`nodes, this`edges, this`nextId
      decreases t, 0, |t.children|
      ensures Flowed(State(), bodyOut) == RepeatParts(t, |t.children|, old(State()), at)
    {
      ghost var g1 := State();
      bodyOut := [];
      var i := 0;
      while i < |t.children|
        invariant 0 <= i <= |t.children| && at < |g1.nodes|
        invariant Flowed(State(), bodyOut) == RepeatParts(t, i, g1, at)
      {
        var c := t.children[i];
        if c.text == "REPEATABLE_PART" {
          bodyOut := ProcessStatement(c, [Pending(at, ClassicEdge)]);
        }
        i := i + 1;
      }
    }

    /** The REPEAT routine's second loop: one RepeatCondition node per UNTIL. */
    method ProcessUntils(t: Tree, at: nat, bodyOut: Frontier) returns (out: Frontier)
      requires at < |nodes| && SourcesIn(bodyOut, |nodes|)
      modifies this`nodes, this`edges, this`nextId
      ensures Flowed(State(), out) == RepeatUntils(t, |t.children|, old(State()), at, bodyOut)
    {
      ghost var g2 := State();
      out := [];
      var j := 0;
      while j < |t.children|
        invariant 0 <= j <= |t.children| && at < |g2.nodes| && SourcesIn(bodyOut, |g2.nodes|)
        invariant Flowed(State(), out) == RepeatUntils(t, j, g2, at, bodyOut)
      {
        var c := t.children[j];
        if c.text == "UNTIL" {
          var u := AddUntilNode(BuildOpTree(c), at, bodyOut);
          out := [Pending(u, FalseEdge)];
        }
        j := j + 1;
      }
    }
  }

  /** `buildCFG`: a fresh graph built for one statement block. */
  method BuildCfg(block: Tree, firstId: int) returns (cfg: ControlFlowGraph)
    requires Processable(block)
    ensures fresh(cfg) && cfg.State() == BuildSpec(block, firstId) && cfg.Valid()
    ensures cfg.entry == 0 && cfg.exit == |cfg.nodes| - 1
    ensures cfg.nodes[cfg.entry].kind == Entry && cfg.nodes[cfg.exit].kind == Exit
    ensures cfg.nodes[cfg.exit].statements == [] && !HasSuccessor(cfg.nodes[cfg.exit])
    ensures cfg.nextId == firstId + |cfg.nodes|
    ensures WellShaped(block) ==> forall i :: 0 <= i < cfg.exit ==> HasSuccessor(cfg.nodes[i])
  {
    cfg := new ControlFlowGraph(firstId);
    var e := cfg.CreateNode(Entry);
    var out := cfg.ProcessStatement(block, [Pending(e, ClassicEdge)]);
    var x := cfg.CreateNode(Exit);
    cfg.Resolve(out, x);
    cfg.entry := e;
    cfg.exit := x;
    CfgTheorems.BuildShape(block, firstId);
    if WellShaped(block) {
      CfgTheorems.BuildConnected(block, firstId);
    }
  }
}
