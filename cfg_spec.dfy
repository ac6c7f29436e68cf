/**
 * The CFG builder as functions over an explicit graph value. Each function
 * follows one routine of the builder: the `...Loop` functions give the state
 * after the first `i` children of a construct, which is exactly what the
 * builder's loops over the children hold after `i` rounds.
 */
module CfgSpec {
  import opened Wrappers
  import opened Syntax
  import opened OpTree
  import opened CfgGraph

  /** The builder's mutable state: the node list, the edge list and the id counter. */
  datatype Graph = Graph(nodes: seq<CfgNode>, edges: seq<CfgEdge>, nextId: int)

  /** A graph together with the frontier a statement hands on. */
  datatype Flowed = Flowed(g: Graph, out: Frontier)

  predicate IsBranchLabel(l: string) { l == "THEN" || l == "ELSE" }

  predicate IsSequenceLabel(l: string)
  {
    l == "BLOCK" || l == "THEN" || l == "ELSE" || l == "DO" || l == "REPEATABLE_PART"
  }

  /**
   * The statement shapes the builder handles without reading uninitialised
   * state or falling off the end of its dispatch: every label it dispatches on
   * is recognised, an IF has a THEN part and a REPEAT has both a
   * REPEATABLE_PART and an UNTIL.
   */
  predicate Processable(t: Tree)
    decreases t
  {
    if t.text == "IF" then
      HasChildLabelled(t, "THEN")
      && forall i :: 0 <= i < |t.children| && IsBranchLabel(t.children[i].text) ==> Processable(t.children[i])
    else if t.text == "WHILE" then
      forall i :: 0 <= i < |t.children| && t.children[i].text == "DO" ==> Processable(t.children[i])
    else if t.text == "REPEAT" then
      HasChildLabelled(t, "REPEATABLE_PART") && HasChildLabelled(t, "UNTIL")
      && forall i :: 0 <= i < |t.children| && t.children[i].text == "REPEATABLE_PART" ==> Processable(t.children[i])
    else if t.text == "BREAK" || t.text == "ASSIGN" || t.text == "EXPRESSION" then true
    else IsSequenceLabel(t.text) && forall i :: 0 <= i < |t.children| ==> Processable(t.children[i])
  }

  /**
   * Processable shapes whose IFs have exactly one THEN and at most one ELSE and
   * whose REPEATs have exactly one REPEATABLE_PART. With more, the builder keeps
   * only the last part's exits and the ends of the earlier parts dangle.
   */
  predicate WellShaped(t: Tree)
    decreases t
  {
    if t.text == "IF" then
      HasChildLabelled(t, "THEN") && CountLabel(t.children, "THEN") == 1 && CountLabel(t.children, "ELSE") <= 1
      && forall i :: 0 <= i < |t.children| && IsBranchLabel(t.children[i].text) ==> WellShaped(t.children[i])
    else if t.text == "WHILE" then
      forall i :: 0 <= i < |t.children| && t.children[i].text == "DO" ==> WellShaped(t.children[i])
    else if t.text == "REPEAT" then
      HasChildLabelled(t, "REPEATABLE_PART") && CountLabel(t.children, "REPEATABLE_PART") == 1
      && HasChildLabelled(t, "UNTIL")
      && forall i :: 0 <= i < |t.children| && t.children[i].text == "REPEATABLE_PART" ==> WellShaped(t.children[i])
    else if t.text == "BREAK" || t.text == "ASSIGN" || t.text == "EXPRESSION" then true
    else IsSequenceLabel(t.text) && forall i :: 0 <= i < |t.children| ==> WellShaped(t.children[i])
  }

  /** The operator trees of the CONDITION children, in order. */
  function Conditions(cs: seq<Tree>): (r: seq<Option<OpNode>>)
    ensures |r| == CountLabel(cs, "CONDITION")
  {
    if cs == [] then []
    else Conditions(cs[..|cs| - 1]) + (if cs[|cs| - 1].text == "CONDITION" then [BuildOpTree(cs[|cs| - 1])] else [])
  }

  /** The last child carrying label `l`, if any. */
  function LastLabelled(cs: seq<Tree>, l: string): (r: Option<Tree>)
    ensures r.Some? ==> r.value in cs && r.value.text == l
    ensures r.Some? <==> CountLabel(cs, l) > 0
  {
    if cs == [] then None
    else if cs[|cs| - 1].text == l then Some(cs[|cs| - 1])
    else LastLabelled(cs[..|cs| - 1], l)
  }

  // ---------------------------------------------------------------------------
  // Primitive updates

  /** `createCFGNode` plus registration in the node list. */
  function NewNode(g: Graph, kind: NodeKind): Graph
  {
    Graph(g.nodes + [CfgNode(g.nextId, kind, [], None, None)], g.edges, g.nextId + 1)
  }

  /** Resolving a frontier into `target`: slots set and every edge recorded. */
  function Link(g: Graph, f: Frontier, target: nat): Graph
    requires SourcesIn(f, |g.nodes|)
  {
    Graph(ResolveAll(g.nodes, f, target), g.edges + EdgesFor(f, target), g.nextId)
  }

  /** Appending one operator tree to a node's statements. */
  function AddStatement(g: Graph, idx: nat, s: Option<OpNode>): Graph
    requires idx < |g.nodes|
  {
    g.(nodes := g.nodes[idx := g.nodes[idx].(statements := g.nodes[idx].statements + [s])])
  }

  // ---------------------------------------------------------------------------
  // Statements

  function Stmt(t: Tree, g: Graph, flow: Frontier): (r: Flowed)
    requires SourcesIn(flow, |g.nodes|) && Processable(t)
    ensures |g.nodes| <= |r.g.nodes| && SourcesIn(r.out, |r.g.nodes|)
    decreases t, 2, 0
  {
    if t.text == "IF" then IfStmt(t, g, flow)
    else if t.text == "WHILE" then WhileStmt(t, g, flow)
    else if t.text == "REPEAT" then RepeatStmt(t, g, flow)
    else if t.text == "BREAK" then Flowed(g, BreakFlow(flow))
    else if t.text == "ASSIGN" || t.text == "EXPRESSION" then SimpleStmt(t, g, flow)
    else SeqStmt(t, |t.children|, g, flow)
  }

  /** The first `i` children in order, each fed the previous one's exits. */
  function SeqStmt(t: Tree, i: nat, g: Graph, flow: Frontier): (r: Flowed)
    requires i <= |t.children| && SourcesIn(flow, |g.nodes|)
    requires forall j :: 0 <= j < |t.children| ==> Processable(t.children[j])
    ensures |g.nodes| <= |r.g.nodes| && SourcesIn(r.out, |r.g.nodes|)
    decreases t, 1, i
  {
    if i == 0 then Flowed(g, flow)
    else
      var p := SeqStmt(t, i - 1, g, flow);
      Stmt(t.children[i - 1], p.g, p.out)
  }

  /** ASSIGN and EXPRESSION. */
  function SimpleStmt(t: Tree, g: Graph, flow: Frontier): (r: Flowed)
    requires SourcesIn(flow, |g.nodes|)
    ensures |g.nodes| <= |r.g.nodes| && SourcesIn(r.out, |r.g.nodes|)
  {
    if |flow| == 1 && g.nodes[flow[0].source].kind == BasicBlock then
      Flowed(AddStatement(g, flow[0].source, BuildOpTree(t)), flow)
    else
      var b := |g.nodes|;
      Flowed(AddStatement(Link(NewNode(g, BasicBlock), flow, b), b, BuildOpTree(t)), [Pending(b, ClassicEdge)])
  }

  /** What the IF routine holds after its loop has seen some children. */
  datatype IfAcc = IfAcc(g: Graph, thenOut: Frontier, elseOut: Frontier, elsePresent: bool)

  function IfLoop(t: Tree, i: nat, g: Graph, at: nat): (r: IfAcc)
    requires i <= |t.children| && at < |g.nodes|
    requires forall j :: 0 <= j < |t.children| && IsBranchLabel(t.children[j].text) ==> Processable(t.children[j])
    ensures |g.nodes| <= |r.g.nodes|
    ensures SourcesIn(r.thenOut, |r.g.nodes|) && SourcesIn(r.elseOut, |r.g.nodes|)
    decreases t, 0, i
  {
    if i == 0 then IfAcc(g, [], [], false)
    else
      var a := IfLoop(t, i - 1, g, at);
      var c := t.children[i - 1];
      if c.text == "CONDITION" then a.(g := AddStatement(a.g, at, BuildOpTree(c)))
      else if c.text == "THEN" then
        var r := Stmt(c, a.g, [Pending(at, TrueEdge)]);
        IfAcc(r.g, r.out, a.elseOut, a.elsePresent)
      else if c.text == "ELSE" then
        var r := Stmt(c, a.g, [Pending(at, FalseEdge)]);
        IfAcc(r.g, a.thenOut, r.out, true)
      else a
  }

  function IfStmt(t: Tree, g: Graph, flow: Frontier): (r: Flowed)
    requires SourcesIn(flow, |g.nodes|) && t.text == "IF" && Processable(t)
    ensures |g.nodes| < |r.g.nodes| && SourcesIn(r.out, |r.g.nodes|)
    decreases t, 1, 0
  {
    var at := |g.nodes|;
    var a := IfLoop(t, |t.children|, Link(NewNode(g, If), flow, at), at);
    Flowed(a.g, a.thenOut + if a.elsePresent then a.elseOut else [Pending(at, FalseEdge)])
  }

  function WhileLoop(t: Tree, i: nat, g: Graph, at: nat): (r: Graph)
    requires i <= |t.children| && at < |g.nodes|
    requires forall j :: 0 <= j < |t.children| && t.children[j].text == "DO" ==> Processable(t.children[j])
    ensures |g.nodes| <= |r.nodes|
    decreases t, 0, i
  {
    if i == 0 then g
    else
      var a := WhileLoop(t, i - 1, g, at);
      var c := t.children[i - 1];
      if c.text == "CONDITION" then AddStatement(a, at, BuildOpTree(c))
      else if c.text == "DO" then
        var r := Stmt(c, a, [Pending(at, TrueEdge)]);
        Link(r.g, r.out, at)
      else a
  }

  function WhileStmt(t: Tree, g: Graph, flow: Frontier): (r: Flowed)
    requires SourcesIn(flow, |g.nodes|) && t.text == "WHILE" && Processable(t)
    ensures |g.nodes| < |r.g.nodes| && SourcesIn(r.out, |r.g.nodes|)
    decreases t, 1, 0
  {
    var at := |g.nodes|;
    Flowed(WhileLoop(t, |t.children|, Link(NewNode(g, While), flow, at), at), [Pending(at, FalseEdge)])
  }

  /** The REPEAT routine's first loop: the graph and the exits of the last REPEATABLE_PART. */
  function RepeatParts(t: Tree, i: nat, g: Graph, at: nat): (r: Flowed)
    requires i <= |t.children| && at < |g.nodes|
    requires forall j :: 0 <= j < |t.children| && t.children[j].text == "REPEATABLE_PART" ==> Processable(t.children[j])
    ensures |g.nodes| <= |r.g.nodes| && SourcesIn(r.out, |r.g.nodes|)
    decreases t, 0, i
  {
    if i == 0 then Flowed(g, [])
    else
      var a := RepeatParts(t, i - 1, g, at);
      var c := t.children[i - 1];
      if c.text == "REPEATABLE_PART" then Stmt(c, a.g, [Pending(at, ClassicEdge)]) else a
  }

  /** The REPEAT routine's second loop: one RepeatCondition node per UNTIL. */
  function RepeatUntils(t: Tree, i: nat, g: Graph, at: nat, bodyOut: Frontier): (r: Flowed)
    requires i <= |t.children| && at < |g.nodes| && SourcesIn(bodyOut, |g.nodes|)
    ensures |g.nodes| <= |r.g.nodes| && SourcesIn(r.out, |r.g.nodes|)
  {
    if i == 0 then Flowed(g, [])
    else
      var a := RepeatUntils(t, i - 1, g, at, bodyOut);
      var c := t.children[i - 1];
      if c.text == "UNTIL" then
        Flowed(AddUntil(a.g, BuildOpTree(c), at, bodyOut), [Pending(|a.g.nodes|, FalseEdge)])
      else a
  }

  /**
   * One UNTIL: a RepeatCondition node carrying the condition receives the
   * body's exits, and its True edge goes back to the body block `at`.
   */
  function AddUntil(g: Graph, cond: Option<OpNode>, at: nat, bodyOut: Frontier): (r: Graph)
    requires SourcesIn(bodyOut, |g.nodes|)
    ensures |r.nodes| == |g.nodes| + 1
  {
    var u := |g.nodes|;
    var g1 := Link(AddStatement(NewNode(g, RepeatCondition), u, cond), bodyOut, u);
    Link(g1, [Pending(u, TrueEdge)], at)
  }

  function RepeatStmt(t: Tree, g: Graph, flow: Frontier): (r: Flowed)
    requires SourcesIn(flow, |g.nodes|) && t.text == "REPEAT" && Processable(t)
    ensures |g.nodes| < |r.g.nodes| && SourcesIn(r.out, |r.g.nodes|)
    decreases t, 1, 0
  {
    var at := |g.nodes|;
    var p := RepeatParts(t, |t.children|, Link(NewNode(g, BasicBlock), flow, at), at);
    RepeatUntils(t, |t.children|, p.g, at, p.out)
  }

  /** `buildCFG`: Entry, the block from Entry's pending edge, then Exit receiving what is left. */
  function BuildSpec(block: Tree, firstId: int): (r: Graph)
    requires Processable(block)
    ensures |r.nodes| >= 2
  {
    var g0 := NewNode(Graph([], [], firstId), Entry);
    var s := Stmt(block, g0, [Pending(0, ClassicEdge)]);
    Link(NewNode(s.g, Exit), s.out, |s.g.nodes|)
  }
}
