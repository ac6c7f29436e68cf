/**
 * Properties of the code `toAsmModule` produces: the instructions an
 * expression or a node body can contain, where each node's code lies, the
 * one-to-one match between jumps and patches, the operands the patch pass
 * leaves behind, where a node's jumps send control, and the data layout.
 */
module CodegenProofs {
  import opened Wrappers
  import opened Text
  import opened OpTree
  import opened CfgGraph
  import opened Syntax
  import opened AsmText
  import opened CodegenSpec
  import opened CfgSpec
  import opened CfgTheorems

  // ---------------------------------------------------------------------------
  // Instruction vocabulary

  /** Every mnemonic the generator emits other than a jump. */
  predicate Plain(m: string)
  {
    m in {"pushi", "pushb", "ldg", "stg", "pop", "add", "sub", "mul", "div", "mod", "and", "or",
          "eq", "ne", "lt", "le", "gt", "ge", "out", "in", "setport", "halt"}
  }

  predicate PlainCode(code: seq<Instr>)
  {
    forall j :: 0 <= j < |code| ==> Plain(code[j].mnemonic)
  }

  lemma PlainAppend(a: seq<Instr>, b: seq<Instr>)
    requires PlainCode(a) && PlainCode(b)
    ensures PlainCode(a + b)
  {
    forall j | 0 <= j < |a + b| ensures Plain((a + b)[j].mnemonic) {
      if j >= |a| { assert (a + b)[j] == b[j - |a|]; }
    }
  }

  /** A jump mnemonic, in any letter case, starts with `j`. */
  lemma JumpStartsWithJ(m: string)
    requires IsJumpMnemonic(m)
    ensures m != [] && (m[0] == 'j' || m[0] == 'J')
  {
    var w :| w in ["jmp", "jz", "jnz"] && LowerString(m) == LowerString(w);
    assert LowerString(w)[0] == Lower(w[0]) == 'j';
  }

  /** No plain mnemonic is a jump, in any letter case. */
  lemma PlainIsNoJump(m: string)
    requires Plain(m)
    ensures !IsJumpMnemonic(m)
  {
    if IsJumpMnemonic(m) {
      JumpStartsWithJ(m);
      assert false;
    }
  }

  /** The three mnemonics `emit_node` jumps with are jumps. */
  lemma NodeJumpsAreJumps(node: CfgNode)
    ensures forall k :: 0 <= k < |NodeJumps(node)| ==> IsJumpMnemonic(NodeJumps(node)[k].mnemonic)
  {
    assert IsJumpMnemonic("jz") && IsJumpMnemonic("jnz") && IsJumpMnemonic("jmp");
  }

  /** The code of any expression uses only plain mnemonics: it never jumps. */
  lemma CompilePlain(names: seq<string>, o: Option<OpNode>)
    ensures PlainCode(Compile(names, o).code)
    decreases o, 2
  {
    if o.Some? {
      CompileNodePlain(names, o.value);
    }
  }

  lemma CompileNodePlain(names: seq<string>, n: OpNode)
    ensures PlainCode(CompileNode(names, n).code)
    decreases n, 1
  {
    var ops := n.operands;
    match n.kind
    case Literal =>
    case Identifier =>
    case Assignment =>
      if |ops| >= 2 {
        CompilePlain(names, ops[1]);
        PlainAppend(Compile(names, ops[1]).code, [StoreCode(names, ops[0])]);
      }
    case Addition => FoldPlain(names, n, "add");
    case Subtraction => FoldPlain(names, n, "sub");
    case Multiplication => FoldPlain(names, n, "mul");
    case Division => FoldPlain(names, n, "div");
    case Modulo => FoldPlain(names, n, "mod");
    case LogicalAnd => FoldPlain(names, n, "and");
    case LogicalOr => FoldPlain(names, n, "or");
    case Equal => FoldPlain(names, n, "eq");
    case NotEqual => FoldPlain(names, n, "ne");
    case LessThan => FoldPlain(names, n, "lt");
    case LessThanOrEqual => FoldPlain(names, n, "le");
    case GreaterThan => FoldPlain(names, n, "gt");
    case GreaterThanOrEqual => FoldPlain(names, n, "ge");
    case UnaryPlus =>
      if |ops| > 0 {
        CompilePlain(names, ops[0]);
      }
    case UnaryMinus =>
      if |ops| > 0 {
        CompilePlain(names, ops[0]);
        PlainAppend([Op1("pushi", "0")], Compile(names, ops[0]).code);
        PlainAppend([Op1("pushi", "0")] + Compile(names, ops[0]).code, [Op0("sub")]);
      }
    case LogicalNot =>
      if |ops| > 0 {
        CompilePlain(names, ops[0]);
        PlainAppend(Compile(names, ops[0]).code, [Op1("pushi", "0"), Op0("eq")]);
      }
    case FunctionCall => CallPlain(names, n);
    case ArrayIndex => SequencePlain(names, n, |ops|);
    case Unknown => SequencePlain(names, n, |ops|);
  }

  lemma FoldPlain(names: seq<string>, n: OpNode, m: string)
    requires Plain(m)
    ensures PlainCode(Fold(names, n, m).code)
    decreases n, 0
  {
    if |n.operands| > 0 {
      CompilePlain(names, n.operands[0]);
      FoldTailPlain(names, n, m, |n.operands|);
      PlainAppend(Compile(names, n.operands[0]).code, FoldTail(names, n, m, |n.operands|));
    }
  }

  lemma {:induction false} FoldTailPlain(names: seq<string>, n: OpNode, m: string, i: nat)
    requires 1 <= i <= |n.operands| && Plain(m)
    ensures PlainCode(FoldTail(names, n, m, i))
    decreases n, 0, i
  {
    if i > 1 {
      FoldTailPlain(names, n, m, i - 1);
      CompilePlain(names, n.operands[i - 1]);
      PlainAppend(FoldTail(names, n, m, i - 1), Compile(names, n.operands[i - 1]).code);
      PlainAppend(FoldTail(names, n, m, i - 1) + Compile(names, n.operands[i - 1]).code, [Op0(m)]);
    }
  }

  lemma CallPlain(names: seq<string>, n: OpNode)
    ensures PlainCode(CallCode(names, n).code)
    decreases n, 0
  {
    if n.text.Some? {
      if n.text.value == "out" {
        OutArgsPlain(names, n, |n.operands|);
      } else if n.text.value == "setport" {
        if |n.operands| == 1 && n.operands[0].Some? {
          CompilePlain(names, n.operands[0]);
          PlainAppend(Compile(names, n.operands[0]).code, [Op0("setport")]);
        }
      } else if n.text.value != "in" {
        PoppedArgsPlain(names, n, |n.operands|);
      }
    }
  }

  lemma {:induction false} OutArgsPlain(names: seq<string>, n: OpNode, i: nat)
    requires i <= |n.operands|
    ensures PlainCode(OutArgs(names, n, i))
    decreases n, 0, i
  {
    if i > 0 {
      OutArgsPlain(names, n, i - 1);
      CompilePlain(names, n.operands[i - 1]);
      PlainAppend(OutArgs(names, n, i - 1), Compile(names, n.operands[i - 1]).code);
      PlainAppend(OutArgs(names, n, i - 1) + Compile(names, n.operands[i - 1]).code, [Op0("out")]);
    }
  }

  lemma {:induction false} PoppedArgsPlain(names: seq<string>, n: OpNode, i: nat)
    requires i <= |n.operands|
    ensures PlainCode(PoppedArgs(names, n, i))
    decreases n, 0, i
  {
    if i > 0 {
      var e := Compile(names, n.operands[i - 1]);
      PoppedArgsPlain(names, n, i - 1);
      CompilePlain(names, n.operands[i - 1]);
      PlainAppend(PoppedArgs(names, n, i - 1), e.code);
      PlainAppend(PoppedArgs(names, n, i - 1) + e.code, if e.hasValue then [Op0("pop")] else []);
    }
  }

  lemma {:induction false} SequencePlain(names: seq<string>, n: OpNode, i: nat)
    requires i <= |n.operands|
    ensures PlainCode(SequencePrefix(names, n, i).code)
    ensures i == |n.operands| ==> PlainCode(Sequence(names, n).code)
    decreases n, 0, i
  {
    if i > 0 {
      var e := Compile(names, n.operands[i - 1]);
      var pop := i - 1 < |n.operands| - 1 && e.hasValue;
      SequencePlain(names, n, i - 1);
      CompilePlain(names, n.operands[i - 1]);
      PlainAppend(SequencePrefix(names, n, i - 1).code, e.code);
      PlainAppend(SequencePrefix(names, n, i - 1).code + e.code, if pop then [Op0("pop")] else []);
    }
  }

  /** The code a node emits before its jumps never jumps. */
  lemma NodeBodyPlain(names: seq<string>, node: CfgNode)
    ensures PlainCode(NodeBody(names, node))
  {
    if node.kind != Exit {
      if IsConditional(node.kind) {
        ConditionPlain(names, node.statements, |node.statements|);
      } else {
        StatementsPlain(names, node.statements, |node.statements|);
      }
    }
  }

  lemma {:induction false} ConditionPlain(names: seq<string>, stmts: seq<Option<OpNode>>, i: nat)
    requires i <= |stmts|
    ensures PlainCode(ConditionCode(names, stmts, i))
  {
    if i > 0 {
      var e := Compile(names, stmts[i - 1]);
      var tail := if i - 1 < |stmts| - 1 && e.hasValue then [Op0("pop")] else [];
      ConditionPlain(names, stmts, i - 1);
      CompilePlain(names, stmts[i - 1]);
      PlainAppend(ConditionCode(names, stmts, i - 1), e.code);
      PlainAppend(ConditionCode(names, stmts, i - 1) + e.code, tail);
    }
  }

  lemma {:induction false} StatementsPlain(names: seq<string>, stmts: seq<Option<OpNode>>, i: nat)
    requires i <= |stmts|
    ensures PlainCode(StatementsCode(names, stmts, i))
  {
    if i > 0 {
      StatementsPlain(names, stmts, i - 1);
      StatementPlain(names, stmts[i - 1]);
      PlainAppend(StatementsCode(names, stmts, i - 1), StatementCode(names, stmts[i - 1]));
    }
  }

  lemma StatementPlain(names: seq<string>, o: Option<OpNode>)
    ensures PlainCode(StatementCode(names, o))
  {
    if o.Some? {
      var e := CompileNode(names, o.value);
      CompileNodePlain(names, o.value);
      PlainAppend(e.code, if e.hasValue then [Op0("pop")] else []);
    }
  }

  // ---------------------------------------------------------------------------
  // Start indices

  /** Where node `i`'s code ends: at the next node's start, or at the end of the code. */
  function NodeEnd(e: Emission, i: nat): nat
    requires i < |e.starts|
  {
    if i + 1 < |e.starts| then e.starts[i + 1] else |e.code|
  }

  /** Node `i`'s code lies, whole, between its start index and the next. */
  ghost predicate InPlace(names: seq<string>, nodes: seq<CfgNode>, e: Emission, i: nat)
    requires i < |nodes| == |e.starts|
  {
    e.starts[i] <= NodeEnd(e, i) <= |e.code| && e.code[e.starts[i]..NodeEnd(e, i)] == NodeCode(names, nodes[i])
  }

  /** Each node's code lies, whole and in node order, between its start index and the next. */
  ghost predicate Laid(names: seq<string>, nodes: seq<CfgNode>, e: Emission)
  {
    |e.starts| == |nodes|
    && (nodes == [] ==> e.code == [])
    && (nodes != [] ==> e.starts[0] == 0)
    && forall i :: 0 <= i < |nodes| ==> InPlace(names, nodes, e, i)
  }

  lemma SlicePrefix(a: seq<Instr>, b: seq<Instr>, i: nat, j: nat)
    requires i <= j <= |a|
    ensures (a + b)[i..j] == a[i..j]
  {
  }

  /**
   * A node's start index is the instruction count before it is emitted: the
   * first node starts at 0 and every node's code runs from its start index
   * to the next node's.
   */
  lemma {:induction false} EmitLayout(names: seq<string>, nodes: seq<CfgNode>)
    ensures Laid(names, nodes, EmitNodes(names, nodes))
  {
    if nodes != [] {
      EmitLayout(names, nodes[..|nodes| - 1]);
      LaidLast(names, nodes);
    }
  }

  /** The layout of all nodes but the last extends to all of them. */
  lemma LaidLast(names: seq<string>, nodes: seq<CfgNode>)
    requires nodes != [] && Laid(names, nodes[..|nodes| - 1], EmitNodes(names, nodes[..|nodes| - 1]))
    ensures Laid(names, nodes, EmitNodes(names, nodes))
  {
    var n := |nodes| - 1;
    var prev := EmitNodes(names, nodes[..n]);
    LaidStep(names, nodes[..n], nodes[n], prev);
    LastSplit(nodes);
    assert EmitNodes(names, nodes) == EmitStep(names, prev, nodes[n]);
    LaidSame(names, nodes[..n] + [nodes[n]], nodes, EmitStep(names, prev, nodes[n]), EmitNodes(names, nodes));
  }

  lemma LastSplit(nodes: seq<CfgNode>)
    requires nodes != []
    ensures nodes[..|nodes| - 1] + [nodes[|nodes| - 1]] == nodes
  {
  }

  lemma LaidSame(names: seq<string>, a: seq<CfgNode>, b: seq<CfgNode>, e: Emission, f: Emission)
    requires Laid(names, a, e) && a == b && e == f
    ensures Laid(names, b, f)
  {
  }

  /** Emitting one more node keeps the layout of the earlier ones and lays the new one after them. */
  lemma LaidStep(names: seq<string>, init: seq<CfgNode>, node: CfgNode, prev: Emission)
    requires Laid(names, init, prev)
    ensures Laid(names, init + [node], EmitStep(names, prev, node))
  {
    var nodes := init + [node];
    var e := EmitStep(names, prev, node);
    forall i | 0 <= i < |nodes|
      ensures InPlace(names, nodes, e, i)
    {
      if i < |init| {
        LaidEarlier(names, init, node, prev, i);
      } else {
        assert e.code[e.starts[i]..NodeEnd(e, i)] == e.code[|prev.code|..];
      }
    }
  }

  lemma LaidEarlier(names: seq<string>, init: seq<CfgNode>, node: CfgNode, prev: Emission, i: nat)
    requires Laid(names, init, prev) && i < |init|
    ensures InPlace(names, init + [node], EmitStep(names, prev, node), i)
  {
    var e := EmitStep(names, prev, node);
    assert InPlace(names, init, prev, i);
    assert (init + [node])[i] == init[i];
    assert e.starts[i] == prev.starts[i] && NodeEnd(e, i) == NodeEnd(prev, i);
    SlicePrefix(prev.code, NodeCode(names, node), prev.starts[i], NodeEnd(prev, i));
  }

  /** Consecutive start indices are ordered. */
  lemma StartsStep(names: seq<string>, nodes: seq<CfgNode>, i: nat)
    requires i + 1 < |nodes|
    ensures EmitNodes(names, nodes).starts[i] <= EmitNodes(names, nodes).starts[i + 1]
  {
    EmitLayout(names, nodes);
    assert NodeEnd(EmitNodes(names, nodes), i) == EmitNodes(names, nodes).starts[i + 1];
  }

  /** Start indices never decrease in node order. */
  lemma StartsOrdered(names: seq<string>, nodes: seq<CfgNode>, i: nat, j: nat)
    requires i <= j < |nodes|
    ensures EmitNodes(names, nodes).starts[i] <= EmitNodes(names, nodes).starts[j]
  {
    var s := EmitNodes(names, nodes).starts;
    forall k | i <= k < j ensures s[k] <= s[k + 1] {
      StartsStep(names, nodes, k);
    }
    ChainOrdered(s, i, j);
  }

  /** A sequence ordered step by step between `i` and `j` is ordered from `i` to `j`. */
  lemma {:induction false} ChainOrdered(s: seq<nat>, i: nat, j: nat)
    requires i <= j < |s| && forall k :: i <= k < j ==> s[k] <= s[k + 1]
    ensures s[i] <= s[j]
    decreases j - i
  {
    if i < j {
      ChainOrdered(s, i + 1, j);
    }
  }

  /**
   * When the last node is Exit, every node starts before the end of the code,
   * and so does index 0, which the patch pass uses for a target it cannot find.
   */
  lemma TargetsInRange(names: seq<string>, nodes: seq<CfgNode>, t: nat)
    requires |nodes| > 0 && nodes[|nodes| - 1].kind == Exit
    ensures StartOf(EmitNodes(names, nodes).starts, t) < |EmitNodes(names, nodes).code|
  {
    var e := EmitNodes(names, nodes);
    var last := |nodes| - 1;
    EmitLayout(names, nodes);
    assert NodeCode(names, nodes[last]) == [Op0("halt")];
    if t < |nodes| {
      StartsOrdered(names, nodes, t, last);
    } else {
      StartsOrdered(names, nodes, 0, last);
    }
  }

  // ---------------------------------------------------------------------------
  // Jumps and patches

  /** Patch `k` points at a jump whose one operand is still the placeholder. */
  ghost predicate PatchAt(e: Emission, k: nat)
    requires k < |e.patches|
  {
    var p := e.patches[k];
    p.instrIndex < |e.code| && p.operandIndex == 0
    && IsJumpMnemonic(e.code[p.instrIndex].mnemonic) && e.code[p.instrIndex].operands == ["0"]
  }

  /** Patches are in increasing instruction order. */
  ghost predicate PatchesOrdered(patches: seq<JumpPatch>)
  {
    forall k, l :: 0 <= k < l < |patches| ==> patches[k].instrIndex < patches[l].instrIndex
  }

  /** Every jump has a patch. */
  ghost predicate JumpsPatched(e: Emission)
  {
    forall j :: 0 <= j < |e.code| && IsJumpMnemonic(e.code[j].mnemonic) ==>
      exists k :: 0 <= k < |e.patches| && e.patches[k].instrIndex == j
  }

  /**
   * Every patch points at a jump whose one operand is still the placeholder,
   * patches are in increasing instruction order, and every jump has a patch.
   */
  ghost predicate PatchedJumps(e: Emission)
  {
    (forall k :: 0 <= k < |e.patches| ==> PatchAt(e, k)) && PatchesOrdered(e.patches) && JumpsPatched(e)
  }

  /** `emit_jump` records exactly one patch, at operand 0, for each jump the generator emits. */
  lemma {:induction false} EmitPatchedJumps(names: seq<string>, nodes: seq<CfgNode>)
    ensures PatchedJumps(EmitNodes(names, nodes))
  {
    if nodes != [] {
      var n := |nodes| - 1;
      EmitPatchedJumps(names, nodes[..n]);
      StepPatchedJumps(names, EmitNodes(names, nodes[..n]), nodes[n]);
    }
  }

  lemma StepPatchedJumps(names: seq<string>, prev: Emission, node: CfgNode)
    requires PatchedJumps(prev)
    ensures PatchedJumps(EmitStep(names, prev, node))
  {
    var e := EmitStep(names, prev, node);
    forall k | 0 <= k < |e.patches| ensures PatchAt(e, k) {
      StepPatchAt(names, prev, node, k);
    }
    StepPatchesOrdered(names, prev, node);
    StepJumpsHavePatches(names, prev, node);
  }

  lemma StepPatchAt(names: seq<string>, prev: Emission, node: CfgNode, k: nat)
    requires PatchedJumps(prev) && k < |EmitStep(names, prev, node).patches|
    ensures PatchAt(EmitStep(names, prev, node), k)
  {
    if k < |prev.patches| {
      assert PatchAt(prev, k);
      StepOldCode(names, prev, node, prev.patches[k].instrIndex);
    } else {
      NodeJumpsAreJumps(node);
      StepJumpCode(names, prev, node, k - |prev.patches|);
    }
  }

  /** Code and patches emitted before a node stay where they were. */
  lemma StepOldCode(names: seq<string>, prev: Emission, node: CfgNode, j: nat)
    requires j < |prev.code|
    ensures j < |EmitStep(names, prev, node).code| && EmitStep(names, prev, node).code[j] == prev.code[j]
    ensures EmitStep(names, prev, node).patches[..|prev.patches|] == prev.patches
  {
  }

  /** The node's body follows the earlier code. */
  lemma StepBodyCode(names: seq<string>, prev: Emission, node: CfgNode, j: nat)
    requires |prev.code| <= j < |prev.code| + |NodeBody(names, node)|
    ensures j < |EmitStep(names, prev, node).code|
    ensures EmitStep(names, prev, node).code[j] == NodeBody(names, node)[j - |prev.code|]
  {
    assert NodeCode(names, node)[j - |prev.code|] == NodeBody(names, node)[j - |prev.code|];
  }

  /** Jump `q` of the node sits after its body, with its patch after the earlier patches. */
  lemma StepJumpCode(names: seq<string>, prev: Emission, node: CfgNode, q: nat)
    requires q < |NodeJumps(node)|
    ensures var at := |prev.code| + |NodeBody(names, node)|; var e := EmitStep(names, prev, node);
      at + q < |e.code| && |prev.patches| + q < |e.patches|
      && e.code[at + q] == Op1(NodeJumps(node)[q].mnemonic, "0")
      && e.patches[|prev.patches| + q] == JumpPatch(at + q, 0, NodeJumps(node)[q].target)
  {
    var body := NodeBody(names, node);
    assert NodeCode(names, node)[|body| + q] == JumpCode(NodeJumps(node))[q];
  }

  lemma StepPatchesOrdered(names: seq<string>, prev: Emission, node: CfgNode)
    requires PatchedJumps(prev)
    ensures PatchesOrdered(EmitStep(names, prev, node).patches)
  {
    var at := |prev.code| + |NodeBody(names, node)|;
    var added := JumpPatches(NodeJumps(node), at);
    forall k | 0 <= k < |prev.patches| ensures prev.patches[k].instrIndex < |prev.code| {
      assert PatchAt(prev, k);
    }
    OrderedConcat(prev.patches, added, |prev.code|);
  }

  /** Two ordered patch lists, the first wholly below `bound` and the second from it on, are ordered together. */
  lemma OrderedConcat(a: seq<JumpPatch>, b: seq<JumpPatch>, bound: nat)
    requires PatchesOrdered(a) && PatchesOrdered(b)
    requires forall k :: 0 <= k < |a| ==> a[k].instrIndex < bound
    requires forall k :: 0 <= k < |b| ==> b[k].instrIndex >= bound
    ensures PatchesOrdered(a + b)
  {
    forall k, l | 0 <= k < l < |a + b| ensures (a + b)[k].instrIndex < (a + b)[l].instrIndex {
      if l < |a| {
        assert (a + b)[k] == a[k] && (a + b)[l] == a[l];
      } else if k < |a| {
        assert (a + b)[k] == a[k] && (a + b)[l] == b[l - |a|];
      } else {
        assert (a + b)[k] == b[k - |a|] && (a + b)[l] == b[l - |a|];
      }
    }
  }

  lemma StepJumpsHavePatches(names: seq<string>, prev: Emission, node: CfgNode)
    requires PatchedJumps(prev)
    ensures JumpsPatched(EmitStep(names, prev, node))
  {
    var e := EmitStep(names, prev, node);
    forall j | 0 <= j < |e.code| && IsJumpMnemonic(e.code[j].mnemonic)
      ensures exists k :: 0 <= k < |e.patches| && e.patches[k].instrIndex == j
    {
      StepJumpHasPatch(names, prev, node, j);
    }
  }

  lemma StepJumpHasPatch(names: seq<string>, prev: Emission, node: CfgNode, j: nat)
    requires PatchedJumps(prev)
    requires j < |EmitStep(names, prev, node).code| && IsJumpMnemonic(EmitStep(names, prev, node).code[j].mnemonic)
    ensures exists k :: 0 <= k < |EmitStep(names, prev, node).patches| && EmitStep(names, prev, node).patches[k].instrIndex == j
  {
    var at := |prev.code| + |NodeBody(names, node)|;
    if j < |prev.code| {
      StepOldCode(names, prev, node, j);
      var k :| 0 <= k < |prev.patches| && prev.patches[k].instrIndex == j;
      assert EmitStep(names, prev, node).patches[k] == prev.patches[k];
    } else if j < at {
      StepBodyNoJump(names, prev, node, j);
      assert false;
    } else {
      StepJumpCode(names, prev, node, j - at);
    }
  }

  /** No instruction of a node's body is a jump. */
  lemma StepBodyNoJump(names: seq<string>, prev: Emission, node: CfgNode, j: nat)
    requires |prev.code| <= j < |prev.code| + |NodeBody(names, node)|
    ensures j < |EmitStep(names, prev, node).code| && !IsJumpMnemonic(EmitStep(names, prev, node).code[j].mnemonic)
  {
    StepBodyCode(names, prev, node, j);
    NodeBodyPlain(names, node);
    PlainIsNoJump(NodeBody(names, node)[j - |prev.code|].mnemonic);
  }

  // ---------------------------------------------------------------------------
  // The patch pass

  /** No patch among the first `i` touches instruction `j`. */
  ghost predicate Untouched(patches: seq<JumpPatch>, i: nat, j: nat)
    requires i <= |patches|
  {
    forall k :: 0 <= k < i ==> patches[k].instrIndex != j
  }

  /** Every patch is at operand 0 of an instruction with exactly one operand. */
  ghost predicate SingleOperands(code: seq<Instr>, patches: seq<JumpPatch>)
    requires PatchesIn(patches, |code|)
  {
    forall k :: 0 <= k < |patches| ==> patches[k].operandIndex == 0 && |code[patches[k].instrIndex].operands| == 1
  }

  /** Instruction `j` after patch `k`: its mnemonic, with the target's start index as its one operand. */
  function Patched(code: seq<Instr>, p: JumpPatch, starts: seq<nat>): Instr
    requires p.instrIndex < |code|
  {
    Instr(code[p.instrIndex].mnemonic, [FormatInt(StartOf(starts, p.target))])
  }

  /**
   * The patch loop, for patches at distinct instructions in increasing order:
   * after `i` patches every patched instruction has its target's start index
   * as its operand, and every other instruction is as it was emitted.
   */
  lemma {:induction false} PatchAllEffect(code: seq<Instr>, patches: seq<JumpPatch>, starts: seq<nat>, i: nat)
    requires i <= |patches| && PatchesIn(patches, |code|) && PatchesOrdered(patches) && SingleOperands(code, patches)
    ensures forall k :: 0 <= k < i ==> PatchAll(code, patches, starts, i)[patches[k].instrIndex] == Patched(code, patches[k], starts)
    ensures forall j :: 0 <= j < |code| && Untouched(patches, i, j) ==> PatchAll(code, patches, starts, i)[j] == code[j]
  {
    if i > 0 {
      PatchAllEffect(code, patches, starts, i - 1);
      var prev := PatchAll(code, patches, starts, i - 1);
      var p := patches[i - 1];
      assert Untouched(patches, i - 1, p.instrIndex);
      PatchOne(code, prev, p, starts);
      var cur := PatchAll(code, patches, starts, i);
      assert cur == prev[p.instrIndex := Patched(code, p, starts)];
      forall k | 0 <= k < i - 1
        ensures cur[patches[k].instrIndex] == Patched(code, patches[k], starts)
      {
        assert patches[k].instrIndex < p.instrIndex;
      }
      forall j | 0 <= j < |code| && Untouched(patches, i, j)
        ensures cur[j] == code[j]
      {
        assert Untouched(patches, i - 1, j) && j != p.instrIndex;
      }
    }
  }

  /** A patch on a still-unpatched one-operand instruction replaces that instruction by its patched form. */
  lemma PatchOne(code: seq<Instr>, prev: seq<Instr>, p: JumpPatch, starts: seq<nat>)
    requires p.instrIndex < |code| == |prev| && prev[p.instrIndex] == code[p.instrIndex]
    requires p.operandIndex == 0 && |code[p.instrIndex].operands| == 1
    ensures ApplyPatch(prev, p, starts) == prev[p.instrIndex := Patched(code, p, starts)]
  {
    var ins := prev[p.instrIndex];
    assert ins.operands[0 := FormatInt(StartOf(starts, p.target))] == [FormatInt(StartOf(starts, p.target))];
  }

  /** The code of an image set against the emission it came from. */
  ghost predicate PatchedFrom(e: Emission, code: seq<Instr>)
  {
    |code| == |e.code|
    && (forall k :: 0 <= k < |e.patches| ==> e.patches[k].instrIndex < |e.code| && code[e.patches[k].instrIndex] == Patched(e.code, e.patches[k], e.starts))
    && (forall j :: 0 <= j < |code| && !IsJumpMnemonic(e.code[j].mnemonic) ==> code[j] == e.code[j])
  }

  /**
   * The code `toAsmModule` returns is the emitted code with only its jumps
   * changed: each keeps its mnemonic and gets, as its one operand, the decimal
   * start index of its target node (0 for a target that is not in the list).
   */
  lemma TranslatedCode(paramTypes: seq<Option<string>>, localTypes: seq<Option<string>>, names: seq<string>, nodes: seq<CfgNode>)
    ensures PatchedFrom(EmitNodes(names, nodes), Translate(paramTypes, localTypes, names, nodes).instructions)
  {
    var e := EmitNodes(names, nodes);
    EmitPatchedJumps(names, nodes);
    forall k | 0 <= k < |e.patches|
      ensures e.patches[k].operandIndex == 0 && |e.code[e.patches[k].instrIndex].operands| == 1
    {
      assert PatchAt(e, k);
    }
    PatchAllEffect(e.code, e.patches, e.starts, |e.patches|);
    forall j | 0 <= j < |e.code| && !IsJumpMnemonic(e.code[j].mnemonic)
      ensures Untouched(e.patches, |e.patches|, j)
    {
      forall k | 0 <= k < |e.patches| ensures e.patches[k].instrIndex != j {
        assert PatchAt(e, k);
      }
    }
  }

  /**
   * Every jump in the image of a node list that ends with Exit has one
   * operand, the decimal form of an instruction index inside the image: the
   * start index of its target node.
   */
  lemma JumpOperandsInRange(paramTypes: seq<Option<string>>, localTypes: seq<Option<string>>, names: seq<string>, nodes: seq<CfgNode>)
    requires |nodes| > 0 && nodes[|nodes| - 1].kind == Exit
    ensures var code := Translate(paramTypes, localTypes, names, nodes).instructions;
      forall j :: 0 <= j < |code| && IsJumpMnemonic(code[j].mnemonic) ==>
        exists t: nat :: t < |code| && code[j].operands == [FormatInt(t)]
  {
    var e := EmitNodes(names, nodes);
    var code := Translate(paramTypes, localTypes, names, nodes).instructions;
    TranslatedCode(paramTypes, localTypes, names, nodes);
    EmitPatchedJumps(names, nodes);
    forall j | 0 <= j < |code| && IsJumpMnemonic(code[j].mnemonic)
      ensures exists t: nat :: t < |code| && code[j].operands == [FormatInt(t)]
    {
      assert IsJumpMnemonic(e.code[j].mnemonic);
      assert JumpsPatched(e);
      var k :| 0 <= k < |e.patches| && e.patches[k].instrIndex == j;
      TargetsInRange(names, nodes, e.patches[k].target);
      assert code[j] == Patched(e.code, e.patches[k], e.starts);
    }
  }

  /**
   * Across the two stages: the image of any graph `buildCFG` builds has every
   * jump operand inside the image, because its node list ends with Exit.
   */
  lemma BuiltJumpsInRange(block: Tree, firstId: int, paramTypes: seq<Option<string>>, localTypes: seq<Option<string>>, names: seq<string>)
    requires Processable(block)
    ensures var code := Translate(paramTypes, localTypes, names, BuildSpec(block, firstId).nodes).instructions;
      forall j :: 0 <= j < |code| && IsJumpMnemonic(code[j].mnemonic) ==>
        exists t: nat :: t < |code| && code[j].operands == [FormatInt(t)]
  {
    BuildShape(block, firstId);
    JumpOperandsInRange(paramTypes, localTypes, names, BuildSpec(block, firstId).nodes);
  }

  // ---------------------------------------------------------------------------
  // Where a node's jumps lead

  /**
   * Where a run of jumps sends control when the value tested is zero (`zero`)
   * or not: `jmp` always jumps, `jz` on zero, `jnz` on non-zero; `None` means
   * control falls through to the code after the jumps, the next node's.
   */
  function Transfer(js: seq<Jump>, zero: bool): Option<nat>
  {
    if js == [] then None
    else if js[0].mnemonic == "jmp" || (js[0].mnemonic == "jz" && zero) || (js[0].mnemonic == "jnz" && !zero) then Some(js[0].target)
    else Transfer(js[1..], zero)
  }

  /**
   * A condition node sends a false (zero) condition along its default slot,
   * the False edge, and a true one along its conditional slot, the True edge,
   * or along the default slot when it has no True edge. Without a slot for the
   * case, control falls through to the node that follows in the list.
   */
  lemma ConditionTransfer(node: CfgNode)
    requires IsConditional(node.kind)
    ensures Transfer(NodeJumps(node), true) == node.nextDefault
    ensures Transfer(NodeJumps(node), false) == if node.nextConditional.Some? then node.nextConditional else node.nextDefault
  {
  }

  /**
   * Any other node except Exit continues along its default slot whatever the
   * stack holds, along its conditional slot when it has no default, and falls
   * through when it has neither; Exit emits no jump.
   */
  lemma PlainTransfer(node: CfgNode, zero: bool)
    requires !IsConditional(node.kind)
    ensures node.kind != Exit ==> Transfer(NodeJumps(node), zero) == if node.nextDefault.Some? then node.nextDefault else node.nextConditional
    ensures node.kind == Exit ==> Transfer(NodeJumps(node), zero) == None
  {
  }

  // ---------------------------------------------------------------------------
  // Data layout

  /**
   * The image has one size entry per variable, parameters then locals, in
   * the order of the variable table: 1 for bool/byte/char, 8 for long/ulong,
   * 4 for anything else, letter case ignored.
   */
  lemma DataLayout(paramTypes: seq<Option<string>>, localTypes: seq<Option<string>>, names: seq<string>, nodes: seq<CfgNode>)
    ensures var d := Translate(paramTypes, localTypes, names, nodes).dataItems;
      |d| == |paramTypes| + |localTypes|
      && forall k :: 0 <= k < |d| ==>
           d[k] == TypeSize(TypeSizeBytes((paramTypes + localTypes)[k])) && d[k].bytes in {1, 4, 8}
  {
    var types := paramTypes + localTypes;
    DataItemsAppend(paramTypes, localTypes);
    var d := DataItems(types);
    forall k | 0 <= k < |d| ensures d[k].bytes in {1, 4, 8} {
      SizeChoices(types[k]);
    }
  }

  /** The sizes of two type lists in a row are the sizes of each list in a row. */
  lemma {:induction false} DataItemsAppend(a: seq<Option<string>>, b: seq<Option<string>>)
    ensures DataItems(a + b) == DataItems(a) + DataItems(b)
  {
    if b != [] {
      var n := |b| - 1;
      DataItemsAppend(a, b[..n]);
      assert (a + b)[..|a + b| - 1] == a + b[..n];
    }
  }

  /** Every variable is 1, 4 or 8 bytes wide. */
  lemma SizeChoices(t: Option<string>)
    ensures TypeSizeBytes(t) in {1, 4, 8}
  {
  }
}
