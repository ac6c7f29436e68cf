/**
 * The control-flow graph as an arena: nodes are addressed by their position in
 * the node list, and the two successor slots hold positions instead of pointers.
 * This module holds the value-level vocabulary (nodes, edges, the frontier of
 * pending edges) and what resolving a frontier does to the arena.
 */
module CfgGraph {
  import opened Wrappers
  import opened OpTree

  datatype NodeKind = BasicBlock | Entry | Exit | If | While | RepeatCondition | Break | Return

  datatype EdgeKind = ClassicEdge | TrueEdge | FalseEdge | BreakEdge | ContinueEdge

  /** A CFG node: its id, kind, carried operator trees and the two successor slots. */
  datatype CfgNode = CfgNode(
    id: int,
    kind: NodeKind,
    statements: seq<Option<OpNode>>,
    nextDefault: Option<nat>,
    nextConditional: Option<nat>)

  /** A resolved edge, kept for labelled rendering only. */
  datatype CfgEdge = CfgEdge(from: nat, to: nat, kind: EdgeKind)

  /** A control-flow edge that has left `source` and has no destination yet. */
  datatype Pending = Pending(source: nat, kind: EdgeKind)

  /** The frontier (`FlowResult`): the pending edges in order. */
  type Frontier = seq<Pending>

  predicate HasSuccessor(n: CfgNode)
  {
    n.nextDefault.Some? || n.nextConditional.Some?
  }

  predicate SlotWithin(s: Option<nat>, lo: nat, hi: nat)
  {
    s.Some? ==> lo <= s.value < hi
  }

  predicate SlotsWithin(n: CfgNode, lo: nat, hi: nat)
  {
    SlotWithin(n.nextDefault, lo, hi) && SlotWithin(n.nextConditional, lo, hi)
  }

  ghost predicate SourcesIn(f: Frontier, bound: nat)
  {
    forall k :: 0 <= k < |f| ==> f[k].source < bound
  }

  ghost predicate InSources(f: Frontier, i: nat)
  {
    exists k :: 0 <= k < |f| && f[k].source == i
  }

  ghost predicate HasTrueFrom(f: Frontier, i: nat)
  {
    exists k :: 0 <= k < |f| && f[k].source == i && f[k].kind == TrueEdge
  }

  ghost predicate HasOtherFrom(f: Frontier, i: nat)
  {
    exists k :: 0 <= k < |f| && f[k].source == i && f[k].kind != TrueEdge
  }

  /**
   * The arena invariant: ids are consecutive from `firstId` in list order, and
   * every slot and every recorded edge names a node of the arena.
   */
  ghost predicate Arena(nodes: seq<CfgNode>, edges: seq<CfgEdge>, firstId: int)
  {
    (forall i :: 0 <= i < |nodes| ==> nodes[i].id == firstId + i && SlotsWithin(nodes[i], 0, |nodes|))
    && (forall e :: e in edges ==> e.from < |nodes| && e.to < |nodes|)
  }

  /** Ids strictly increase along the node list. */
  lemma ArenaIdsIncrease(nodes: seq<CfgNode>, edges: seq<CfgEdge>, firstId: int, i: nat, j: nat)
    requires Arena(nodes, edges, firstId)
    requires i < j < |nodes|
    ensures nodes[i].id < nodes[j].id
  {
  }

  // ---------------------------------------------------------------------------
  // Resolving pending edges

  /** Resolving one pending edge: a True edge fills `nextConditional`, every other kind `nextDefault`. */
  function ResolveOne(nodes: seq<CfgNode>, p: Pending, target: nat): (r: seq<CfgNode>)
    requires p.source < |nodes|
    ensures |r| == |nodes|
  {
    var n := nodes[p.source];
    nodes[p.source := if p.kind == TrueEdge then n.(nextConditional := Some(target))
                      else n.(nextDefault := Some(target))]
  }

  /** Resolving a whole frontier, edge by edge in order. */
  function ResolveAll(nodes: seq<CfgNode>, f: Frontier, target: nat): (r: seq<CfgNode>)
    requires SourcesIn(f, |nodes|)
    ensures |r| == |nodes|
  {
    if f == [] then nodes
    else ResolveOne(ResolveAll(nodes, f[..|f| - 1], target), f[|f| - 1], target)
  }

  /** The edge records appended while resolving `f` into `target`. */
  function EdgesFor(f: Frontier, target: nat): (r: seq<CfgEdge>)
  {
    if f == [] then [] else EdgesFor(f[..|f| - 1], target) + [CfgEdge(f[|f| - 1].source, target, f[|f| - 1].kind)]
  }

  /**
   * What resolution does to each node: ids, kinds and statements are untouched;
   * `nextConditional` becomes the target exactly when a True edge leaves the
   * node, `nextDefault` exactly when an edge of any other kind does.
   */
  lemma {:induction false} ResolveAllEffect(nodes: seq<CfgNode>, f: Frontier, target: nat, i: nat)
    requires SourcesIn(f, |nodes|) && i < |nodes|
    ensures ResolveAll(nodes, f, target)[i].id == nodes[i].id
    ensures ResolveAll(nodes, f, target)[i].kind == nodes[i].kind
    ensures ResolveAll(nodes, f, target)[i].statements == nodes[i].statements
    ensures ResolveAll(nodes, f, target)[i].nextConditional
         == if HasTrueFrom(f, i) then Some(target) else nodes[i].nextConditional
    ensures ResolveAll(nodes, f, target)[i].nextDefault
         == if HasOtherFrom(f, i) then Some(target) else nodes[i].nextDefault
  {
    if f != [] {
      var g := f[..|f| - 1];
      assert SourcesIn(g, |nodes|);
      ResolveAllEffect(nodes, g, target, i);
      var last := f[|f| - 1];
      assert HasTrueFrom(f, i) <==> HasTrueFrom(g, i) || (last.source == i && last.kind == TrueEdge) by {
        if HasTrueFrom(f, i) && !(last.source == i && last.kind == TrueEdge) {
          var k :| 0 <= k < |f| && f[k].source == i && f[k].kind == TrueEdge;
          assert k < |g| && g[k] == f[k];
        }
        if HasTrueFrom(g, i) {
          var k :| 0 <= k < |g| && g[k].source == i && g[k].kind == TrueEdge;
          assert f[k] == g[k];
        }
      }
      assert HasOtherFrom(f, i) <==> HasOtherFrom(g, i) || (last.source == i && last.kind != TrueEdge) by {
        if HasOtherFrom(f, i) && !(last.source == i && last.kind != TrueEdge) {
          var k :| 0 <= k < |f| && f[k].source == i && f[k].kind != TrueEdge;
          assert k < |g| && g[k] == f[k];
        }
        if HasOtherFrom(g, i) {
          var k :| 0 <= k < |g| && g[k].source == i && g[k].kind != TrueEdge;
          assert f[k] == g[k];
        }
      }
    }
  }

  /** Every source of a resolved frontier ends with a successor; nodes outside it are untouched. */
  lemma ResolveAllSummary(nodes: seq<CfgNode>, f: Frontier, target: nat)
    requires SourcesIn(f, |nodes|)
    ensures forall k :: 0 <= k < |f| ==> HasSuccessor(ResolveAll(nodes, f, target)[f[k].source])
    ensures forall i :: 0 <= i < |nodes| && !InSources(f, i) ==> ResolveAll(nodes, f, target)[i] == nodes[i]
    ensures forall i :: 0 <= i < |nodes| ==>
      var r := ResolveAll(nodes, f, target)[i];
      r.id == nodes[i].id && r.kind == nodes[i].kind && r.statements == nodes[i].statements
      && (r.nextDefault == nodes[i].nextDefault || r.nextDefault == Some(target))
      && (r.nextConditional == nodes[i].nextConditional || r.nextConditional == Some(target))
  {
    forall k | 0 <= k < |f|
      ensures HasSuccessor(ResolveAll(nodes, f, target)[f[k].source])
    {
      ResolveAllEffect(nodes, f, target, f[k].source);
      if f[k].kind == TrueEdge { assert HasTrueFrom(f, f[k].source); } else { assert HasOtherFrom(f, f[k].source); }
    }
    forall i | 0 <= i < |nodes|
      ensures !InSources(f, i) ==> ResolveAll(nodes, f, target)[i] == nodes[i]
      ensures var r := ResolveAll(nodes, f, target)[i];
        r.id == nodes[i].id && r.kind == nodes[i].kind && r.statements == nodes[i].statements
        && (r.nextDefault == nodes[i].nextDefault || r.nextDefault == Some(target))
        && (r.nextConditional == nodes[i].nextConditional || r.nextConditional == Some(target))
    {
      ResolveAllEffect(nodes, f, target, i);
      if !InSources(f, i) {
        assert !HasTrueFrom(f, i) && !HasOtherFrom(f, i);
      }
    }
  }

  /** Appending a node the frontier does not leave from commutes with resolution. */
  lemma {:induction false} ResolveAllAppend(nodes: seq<CfgNode>, x: CfgNode, f: Frontier, target: nat)
    requires SourcesIn(f, |nodes|)
    ensures SourcesIn(f, |nodes + [x]|)
    ensures ResolveAll(nodes + [x], f, target) == ResolveAll(nodes, f, target) + [x]
  {
    if f != [] {
      ResolveAllAppend(nodes, x, f[..|f| - 1], target);
    }
  }

  /**
   * Every edge of `f` has been resolved into `target`: a True edge's source has
   * `target` as its conditional successor, any other edge's source as its
   * default successor.
   */
  ghost predicate ResolvedInto(nodes: seq<CfgNode>, f: Frontier, target: nat)
  {
    forall k :: 0 <= k < |f| ==>
      f[k].source < |nodes|
      && (if f[k].kind == TrueEdge then nodes[f[k].source].nextConditional else nodes[f[k].source].nextDefault) == Some(target)
  }

  /** Resolving a frontier resolves every one of its edges, whatever the order and repetitions. */
  lemma ResolveAllResolves(nodes: seq<CfgNode>, f: Frontier, target: nat)
    requires SourcesIn(f, |nodes|)
    ensures ResolvedInto(ResolveAll(nodes, f, target), f, target)
  {
    forall k | 0 <= k < |f|
      ensures (if f[k].kind == TrueEdge then ResolveAll(nodes, f, target)[f[k].source].nextConditional
               else ResolveAll(nodes, f, target)[f[k].source].nextDefault) == Some(target)
    {
      ResolveAllEffect(nodes, f, target, f[k].source);
      if f[k].kind == TrueEdge { assert HasTrueFrom(f, f[k].source); } else { assert HasOtherFrom(f, f[k].source); }
    }
  }

  /** Resolution is read off the sources only: node lists agreeing on every source agree on it. */
  lemma ResolvedAgree(a: seq<CfgNode>, b: seq<CfgNode>, f: Frontier, target: nat, lo: nat)
    requires ResolvedInto(a, f, target) && SourcesIn(f, lo) && lo <= |a| && lo <= |b|
    requires forall i :: 0 <= i < lo ==> b[i] == a[i]
    ensures ResolvedInto(b, f, target)
  {
  }

  /** `processBreakStatement`: every pending edge is relabelled Break and passed on unresolved. */
  function BreakFlow(f: Frontier): (r: Frontier)
    ensures |r| == |f|
    ensures forall k :: 0 <= k < |f| ==> r[k] == Pending(f[k].source, BreakEdge)
  {
    if f == [] then [] else BreakFlow(f[..|f| - 1]) + [Pending(f[|f| - 1].source, BreakEdge)]
  }

  /**
   * A frontier that went through a BREAK never fills a `nextConditional` slot,
   * whatever kinds its edges had before: each of its sources gets `nextDefault`.
   */
  lemma BreakResolvesIntoDefault(nodes: seq<CfgNode>, f: Frontier, target: nat, i: nat)
    requires SourcesIn(f, |nodes|) && i < |nodes|
    ensures SourcesIn(BreakFlow(f), |nodes|)
    ensures ResolveAll(nodes, BreakFlow(f), target)[i].nextConditional == nodes[i].nextConditional
    ensures InSources(f, i) ==> ResolveAll(nodes, BreakFlow(f), target)[i].nextDefault == Some(target)
  {
    var b := BreakFlow(f);
    ResolveAllEffect(nodes, b, target, i);
    assert !HasTrueFrom(b, i);
    if InSources(f, i) {
      var k :| 0 <= k < |f| && f[k].source == i;
      assert b[k].source == i && b[k].kind != TrueEdge;
    }
  }
}
