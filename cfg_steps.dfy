/**
 * What one statement does to the graph, as a relation between the node list
 * before and after it, the frontier it received and the frontier it hands on.
 * The relation composes, which is what lets a statement sequence, an IF with
 * its two branches and a loop with its body be reasoned about piecewise.
 */
module CfgSteps {
  import opened Wrappers
  import opened CfgGraph

  /** A slot either keeps its value or now names a node created in `[lo, hi)`. */
  predicate Retargeted(x: Option<nat>, y: Option<nat>, lo: nat, hi: nat)
  {
    y == x || (y.Some? && lo <= y.value < hi)
  }

  /**
   * Nodes are only appended; existing nodes keep id and kind, a node that is
   * not a basic block keeps its statements, and a slot that changes now names
   * one of the appended nodes.
   */
  ghost predicate Grows(a: seq<CfgNode>, b: seq<CfgNode>)
  {
    |a| <= |b|
    && forall i :: 0 <= i < |a| ==>
         b[i].id == a[i].id && b[i].kind == a[i].kind
         && (a[i].kind != BasicBlock ==> b[i].statements == a[i].statements)
         && Retargeted(a[i].nextDefault, b[i].nextDefault, |a|, |b|)
         && Retargeted(a[i].nextConditional, b[i].nextConditional, |a|, |b|)
  }

  /** Only nodes that a pending edge leaves from may change. */
  ghost predicate Framed(a: seq<CfgNode>, b: seq<CfgNode>, flow: Frontier)
  {
    forall i :: 0 <= i < |a| && i < |b| && !InSources(flow, i) ==> b[i] == a[i]
  }

  /** The first `lo` nodes are unchanged. */
  ghost predicate Fixed(a: seq<CfgNode>, b: seq<CfgNode>, lo: nat)
  {
    lo <= |a| && lo <= |b| && forall i :: 0 <= i < lo ==> b[i] == a[i]
  }

  /** Every incoming pending edge was resolved, or its source is still pending. */
  ghost predicate Consumes(b: seq<CfgNode>, flow: Frontier, out: Frontier)
  {
    forall k :: 0 <= k < |flow| ==>
      flow[k].source < |b| && (HasSuccessor(b[flow[k].source]) || InSources(out, flow[k].source))
  }

  /** Outgoing pending edges leave either a new node or a node that was pending on entry. */
  ghost predicate OutFrom(flow: Frontier, lo: nat, out: Frontier)
  {
    forall k :: 0 <= k < |out| ==> out[k].source >= lo || InSources(flow, out[k].source)
  }

  /** The nodes from `lo` on are neither Entry nor Exit and point only among themselves. */
  ghost predicate NewClosed(lo: nat, b: seq<CfgNode>)
  {
    forall i :: lo <= i < |b| ==>
      SlotsWithin(b[i], lo, |b|) && b[i].kind != Entry && b[i].kind != Exit
  }

  /** Every node from `lo` on has a successor or is still pending. */
  ghost predicate NewCovered(lo: nat, b: seq<CfgNode>, out: Frontier)
  {
    forall i :: lo <= i < |b| ==> HasSuccessor(b[i]) || InSources(out, i)
  }

  /**
   * The contract of processing one statement: nodes `a` become `b`, the
   * frontier `flow` becomes `out`; when the statement is well shaped, no new
   * node is left without a successor except through `out`.
   */
  ghost predicate Step(a: seq<CfgNode>, b: seq<CfgNode>, flow: Frontier, out: Frontier, shaped: bool)
  {
    Grows(a, b) && Framed(a, b, flow) && SourcesIn(out, |b|)
    && Consumes(b, flow, out) && OutFrom(flow, |a|, out) && NewClosed(|a|, b)
    && (shaped ==> NewCovered(|a|, b, out))
  }

  lemma GrowsTrans(a: seq<CfgNode>, b: seq<CfgNode>, c: seq<CfgNode>)
    requires Grows(a, b) && Grows(b, c)
    ensures Grows(a, c)
  {
  }

  /** Growth followed by changes confined to the newer nodes is still growth. */
  lemma GrowsFixed(a: seq<CfgNode>, b: seq<CfgNode>, c: seq<CfgNode>)
    requires Grows(a, b) && Fixed(b, c, |a|) && |b| <= |c|
    ensures Grows(a, c)
  {
  }

  /** Steps compose: the first step's outgoing frontier is the second's incoming one. */
  lemma StepTrans(a: seq<CfgNode>, b: seq<CfgNode>, c: seq<CfgNode>,
                  f: Frontier, g: Frontier, h: Frontier, s1: bool, s2: bool)
    requires Step(a, b, f, g, s1) && Step(b, c, g, h, s2)
    ensures Step(a, c, f, h, s1 && s2)
  {
    forall i | 0 <= i < |a| && !InSources(f, i)
      ensures c[i] == b[i]
    {
      assert forall k :: 0 <= k < |g| ==> g[k].source != i;
    }
    forall k | 0 <= k < |f|
      ensures HasSuccessor(c[f[k].source]) || InSources(h, f[k].source)
    {
      var s := f[k].source;
      if !HasSuccessor(b[s]) {
        var j :| 0 <= j < |g| && g[j].source == s;
        assert HasSuccessor(c[g[j].source]) || InSources(h, g[j].source);
      }
    }
    forall k | 0 <= k < |h|
      ensures h[k].source >= |a| || InSources(f, h[k].source)
    {
      if h[k].source < |b| {
        var j :| 0 <= j < |g| && g[j].source == h[k].source;
        assert g[j].source >= |a| || InSources(f, g[j].source);
      }
    }
    if s1 && s2 {
      forall i | |a| <= i < |c|
        ensures HasSuccessor(c[i]) || InSources(h, i)
      {
        if i < |b| && !HasSuccessor(b[i]) {
          var j :| 0 <= j < |g| && g[j].source == i;
          assert HasSuccessor(c[g[j].source]) || InSources(h, g[j].source);
        }
      }
    }
  }

  /** Passing a frontier on untouched is a step. */
  lemma StepIdle(a: seq<CfgNode>, f: Frontier)
    requires SourcesIn(f, |a|)
    ensures Step(a, a, f, f, true)
  {
    forall k | 0 <= k < |f| ensures InSources(f, f[k].source) { }
  }

  /** A BREAK is a step: it creates nothing and hands on its frontier relabelled. */
  lemma StepBreak(a: seq<CfgNode>, f: Frontier)
    requires SourcesIn(f, |a|)
    ensures Step(a, a, f, BreakFlow(f), true)
  {
    var b := BreakFlow(f);
    forall k | 0 <= k < |f| ensures InSources(b, f[k].source) { assert b[k].source == f[k].source; }
    forall k | 0 <= k < |b| ensures InSources(f, b[k].source) { assert b[k].source == f[k].source; }
  }

  /** The earlier nodes stay within the grown region; the new ones are closed on their own. */
  lemma NewClosedExtend(lo: nat, b: seq<CfgNode>, c: seq<CfgNode>)
    requires lo <= |b| && NewClosed(lo, b) && Grows(b, c) && NewClosed(|b|, c)
    ensures NewClosed(lo, c)
  {
  }

  lemma InSourcesConcat(a: Frontier, b: Frontier, i: nat)
    ensures InSources(a, i) ==> InSources(a + b, i)
    ensures InSources(b, i) ==> InSources(a + b, i)
  {
    if InSources(a, i) {
      var k :| 0 <= k < |a| && a[k].source == i;
      assert (a + b)[k] == a[k];
    }
    if InSources(b, i) {
      var k :| 0 <= k < |b| && b[k].source == i;
      assert (a + b)[|a| + k] == b[k];
    }
  }

  /** The frontier a single-edge start produced leaves only new nodes or the start node. */
  lemma FromSingle(p: Pending, lo: nat, out: Frontier)
    requires OutFrom([p], lo, out) && p.source < lo
    ensures AllFrom(out, p.source)
  {
    forall k | 0 <= k < |out| ensures out[k].source >= p.source {
      assert out[k].source >= lo || InSources([p], out[k].source);
    }
  }

  ghost predicate AllFrom(f: Frontier, lo: nat)
  {
    forall k :: 0 <= k < |f| ==> f[k].source >= lo
  }

  lemma AllFromConcat(a: Frontier, b: Frontier, lo: nat)
    requires AllFrom(a, lo) && AllFrom(b, lo)
    ensures AllFrom(a + b, lo)
  {
    forall k | 0 <= k < |a + b| ensures (a + b)[k].source >= lo {
      if k < |a| { assert (a + b)[k] == a[k]; } else { assert (a + b)[k] == b[k - |a|]; }
    }
  }
}
