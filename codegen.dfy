/**
 * The code generator of `to_asm_module.c` as it runs: an emitter object that
 * appends instructions and jump patches (the `CodegenContext` and its
 * `JumpPatchList`), and `toAsmModule`, which emits every CFG node, then
 * patches each jump. Every method is proved against `CodegenSpec`.
 */
module Codegen {
  import opened Wrappers
  import opened Text
  import opened OpTree
  import opened CfgGraph
  import opened CfgBuilder
  import opened Declarations
  import opened AsmText
  import opened CodegenSpec

  /** The generator's context: the variable table, the instruction list and the patch list. */
  class Emitter {
    const names: seq<string>
    var code: seq<Instr>
    var patches: seq<JumpPatch>

    constructor (names: seq<string>)
      ensures this.names == names && code == [] && patches == []
    {
      this.names := names;
      code := [];
      patches := [];
    }

    /** `instruction_list_add`: appends one instruction and returns its index. */
    method Add(mnemonic: string, operands: seq<string>) returns (index: nat)
      modifies this
      ensures code == old(code) + [Instr(mnemonic, operands)] && index == |old(code)|
      ensures patches == old(patches)
    {
      index := |code|;
      code := code + [Instr(mnemonic, operands)];
    }

    /** `emit_expression`. */
    method EmitExpression(o: Option<OpNode>) returns (hasValue: bool)
      modifies this
      ensures code == old(code) + Compile(names, o).code && hasValue == Compile(names, o).hasValue
      ensures patches == old(patches)
      decreases o, 1
    {
      if o.None? {
        return false;
      }
      var n := o.value;
      match n.kind
      case Literal =>
        var _ := Add(LiteralCode(n.text).mnemonic, LiteralCode(n.text).operands);
        return true;
      case Identifier =>
        var index := FindVarIndex(names, n.text);
        if index >= 0 {
          var _ := Add("ldg", [FormatInt(index)]);
        } else {
          var _ := Add("pushi", ["0"]);
        }
        return true;
      case Assignment =>
        EmitAssignment(n);
        return false;
      case Addition => hasValue := EmitBinaryLeftFold(n, "add");
      case Subtraction => hasValue := EmitBinaryLeftFold(n, "sub");
      case Multiplication => hasValue := EmitBinaryLeftFold(n, "mul");
      case Division => hasValue := EmitBinaryLeftFold(n, "div");
      case Modulo => hasValue := EmitBinaryLeftFold(n, "mod");
      case LogicalAnd => hasValue := EmitBinaryLeftFold(n, "and");
      case LogicalOr => hasValue := EmitBinaryLeftFold(n, "or");
      case Equal => hasValue := EmitBinaryLeftFold(n, "eq");
      case NotEqual => hasValue := EmitBinaryLeftFold(n, "ne");
      case LessThan => hasValue := EmitBinaryLeftFold(n, "lt");
      case LessThanOrEqual => hasValue := EmitBinaryLeftFold(n, "le");
      case GreaterThan => hasValue := EmitBinaryLeftFold(n, "gt");
      case GreaterThanOrEqual => hasValue := EmitBinaryLeftFold(n, "ge");
      case UnaryPlus => hasValue := EmitUnary(n);
      case UnaryMinus => hasValue := EmitUnary(n);
      case LogicalNot => hasValue := EmitUnary(n);
      case FunctionCall => hasValue := EmitFunctionCall(n);
      case ArrayIndex => hasValue := EmitSequence(n);
      case Unknown => hasValue := EmitSequence(n);
    }

    /** An assignment: the value, then `stg` into a known identifier or `pop`. */
    method EmitAssignment(n: OpNode)
      requires n.kind == Assignment
      modifies this
      ensures code == old(code) + CompileNode(names, n).code && patches == old(patches)
      decreases n, 0
    {
      if |n.operands| >= 2 {
        var _ := EmitExpression(n.operands[1]);
        var target := n.operands[0];
        var index := -1;
        if target.Some? && target.value.kind == Identifier {
          index := FindVarIndex(names, target.value.text);
        }
        if index >= 0 {
          var _ := Add("stg", [FormatInt(index)]);
        } else {
          var _ := Add("pop", []);
        }
      }
    }

    /** Unary plus, unary minus and logical not. */
    method EmitUnary(n: OpNode) returns (hasValue: bool)
      requires n.kind == UnaryPlus || n.kind == UnaryMinus || n.kind == LogicalNot
      modifies this
      ensures code == old(code) + CompileNode(names, n).code && hasValue == CompileNode(names, n).hasValue
      ensures patches == old(patches)
      decreases n, 0
    {
      hasValue := false;
      if |n.operands| == 0 {
        return;
      }
      if n.kind == UnaryPlus {
        hasValue := EmitExpression(n.operands[0]);
      } else if n.kind == UnaryMinus {
        var _ := Add("pushi", ["0"]);
        var _ := EmitExpression(n.operands[0]);
        var _ := Add("sub", []);
        hasValue := true;
      } else {
        var _ := EmitExpression(n.operands[0]);
        var _ := Add("pushi", ["0"]);
        var _ := Add("eq", []);
        hasValue := true;
      }
    }

    /** `emit_binary_left_fold`: the first operand, then each later operand followed by the operator. */
    method EmitBinaryLeftFold(n: OpNode, mnemonic: string) returns (hasValue: bool)
      modifies this
      ensures code == old(code) + Fold(names, n, mnemonic).code && hasValue == Fold(names, n, mnemonic).hasValue
      ensures patches == old(patches)
      decreases n, 0
    {
      if |n.operands| == 0 {
        return false;
      }
      var _ := EmitExpression(n.operands[0]);
      var i := 1;
      while i < |n.operands|
        invariant 1 <= i <= |n.operands|
        invariant code == old(code) + Compile(names, n.operands[0]).code + FoldTail(names, n, mnemonic, i)
        invariant patches == old(patches)
      {
        var _ := EmitExpression(n.operands[i]);
        var _ := Add(mnemonic, []);
        i := i + 1;
      }
      return true;
    }

    /** `emit_function_call`: the built-ins out, in and setport, and ordinary calls. */
    method EmitFunctionCall(n: OpNode) returns (hasValue: bool)
      modifies this
      ensures code == old(code) + CallCode(names, n).code && hasValue == CallCode(names, n).hasValue
      ensures patches == old(patches)
      decreases n, 0
    {
      if n.text.None? {
        return false;
      }
      var name := n.text.value;
      if name == "out" {
        if |n.operands| == 0 {
          var _ := Add("out", []);
        } else {
          var i := 0;
          while i < |n.operands|
            invariant 0 <= i <= |n.operands|
            invariant code == old(code) + OutArgs(names, n, i) && patches == old(patches)
          {
            var _ := EmitExpression(n.operands[i]);
            var _ := Add("out", []);
            i := i + 1;
          }
        }
        return false;
      }
      if name == "in" {
        var _ := Add("in", []);
        return true;
      }
      if name == "setport" {
        var single := |n.operands| == 1 && n.operands[0].Some?;
        if single && n.operands[0].value.kind == Literal {
          var value := ParseIntLiteral(n.operands[0].value.text);
          if value.Some? {
            var _ := Add("setport", [FormatInt(value.value)]);
            return false;
          }
        }
        if single {
          var _ := EmitExpression(n.operands[0]);
        }
        var _ := Add("setport", []);
        return false;
      }
      var i := 0;
      while i < |n.operands|
        invariant 0 <= i <= |n.operands|
        invariant code == old(code) + PoppedArgs(names, n, i) && patches == old(patches)
      {
        var v := EmitExpression(n.operands[i]);
        if v {
          var _ := Add("pop", []);
        }
        i := i + 1;
      }
      return false;
    }

    /** The default case of `emit_expression`: the operands in order, all values but the last popped. */
    method EmitSequence(n: OpNode) returns (hasValue: bool)
      modifies this
      ensures code == old(code) + Sequence(names, n).code && hasValue == Sequence(names, n).hasValue
      ensures patches == old(patches)
      decreases n, 0
    {
      hasValue := false;
      var i := 0;
      while i < |n.operands|
        invariant 0 <= i <= |n.operands|
        invariant code == old(code) + SequencePrefix(names, n, i).code && hasValue == SequencePrefix(names, n, i).hasValue
        invariant patches == old(patches)
      {
        var v := EmitExpression(n.operands[i]);
        if i < |n.operands| - 1 && v {
          var _ := Add("pop", []);
        }
        hasValue := v;
        i := i + 1;
      }
      if |n.operands| == 0 {
        var _ := Add("pushi", ["0"]);
        hasValue := true;
      }
    }

    /** `emit_statement`: a value a statement leaves behind is popped, except after an assignment. */
    method EmitStatement(o: Option<OpNode>)
      modifies this
      ensures code == old(code) + StatementCode(names, o) && patches == old(patches)
    {
      if o.None? {
        return;
      }
      var v := EmitExpression(o);
      if o.value.kind != Assignment && v {
        var _ := Add("pop", []);
      }
    }

    /** `emit_jump`: a jump with the placeholder operand "0" and a patch for operand 0. */
    method EmitJump(mnemonic: string, target: nat)
      modifies this
      ensures code == old(code) + [Instr(mnemonic, ["0"])]
      ensures patches == old(patches) + [JumpPatch(|old(code)|, 0, target)]
    {
      var index := Add(mnemonic, ["0"]);
      patches := patches + [JumpPatch(index, 0, target)];
    }

    /** `emit_node`: the node's body, then the jumps to its successors. */
    method EmitNode(node: CfgNode)
      modifies this
      ensures code == old(code) + NodeCode(names, node)
      ensures patches == old(patches) + JumpPatches(NodeJumps(node), |old(code)| + |NodeBody(names, node)|)
    {
      EmitNodeBody(node);
      EmitJumps(NodeJumps(node));
    }

    /** What `emit_node` emits before the jumps: `halt`, a condition, or the statements. */
    method EmitNodeBody(node: CfgNode)
      modifies this
      ensures code == old(code) + NodeBody(names, node) && patches == old(patches)
    {
      if node.kind == Exit {
        var _ := Add("halt", []);
      } else if IsConditional(node.kind) {
        EmitCondition(node.statements);
      } else {
        EmitStatements(node.statements);
      }
    }

    /** The condition of a branching node: every value but the last is popped. */
    method EmitCondition(stmts: seq<Option<OpNode>>)
      modifies this
      ensures code == old(code) + ConditionCode(names, stmts, |stmts|) && patches == old(patches)
    {
      var i := 0;
      while i < |stmts|
        invariant 0 <= i <= |stmts|
        invariant code == old(code) + ConditionCode(names, stmts, i) && patches == old(patches)
      {
        ghost var before := code;
        var v := EmitExpression(stmts[i]);
        ghost var popped: seq<Instr> := [];
        if i < |stmts| - 1 && v {
          var _ := Add("pop", []);
          popped := [Op0("pop")];
        }
        ConditionStep(names, stmts, i, old(code), before, code, popped);
        i := i + 1;
      }
    }

    /** The statements of a plain node, each through `emit_statement`. */
    method EmitStatements(stmts: seq<Option<OpNode>>)
      modifies this
      ensures code == old(code) + StatementsCode(names, stmts, |stmts|) && patches == old(patches)
    {
      var i := 0;
      while i < |stmts|
        invariant 0 <= i <= |stmts|
        invariant code == old(code) + StatementsCode(names, stmts, i) && patches == old(patches)
      {
        ghost var before := code;
        EmitStatement(stmts[i]);
        StatementsStep(names, stmts, i, old(code), before, code);
        i := i + 1;
      }
    }

    /** The jumps of a node, emitted in order. */
    method EmitJumps(js: seq<Jump>)
      modifies this
      ensures code == old(code) + JumpCode(js)
      ensures patches == old(patches) + JumpPatches(js, |old(code)|)
    {
      var i := 0;
      while i < |js|
        invariant 0 <= i <= |js|
        invariant code == old(code) + JumpCode(js[..i])
        invariant patches == old(patches) + JumpPatches(js[..i], |old(code)|)
      {
        assert js[..i + 1][..i] == js[..i];
        EmitJump(js[i].mnemonic, js[i].target);
        i := i + 1;
      }
      assert js[..i] == js;
    }
  }

  /** The statement loop's invariant carried over statement `i`. */
  lemma StatementsStep(names: seq<string>, stmts: seq<Option<OpNode>>, i: nat,
                       start: seq<Instr>, before: seq<Instr>, after: seq<Instr>)
    requires i < |stmts| && before == start + StatementsCode(names, stmts, i)
    requires after == before + StatementCode(names, stmts[i])
    ensures after == start + StatementsCode(names, stmts, i + 1)
  {
  }

  /** The condition loop's invariant carried over statement `i`. */
  lemma ConditionStep(names: seq<string>, stmts: seq<Option<OpNode>>, i: nat,
                      start: seq<Instr>, before: seq<Instr>, after: seq<Instr>, popped: seq<Instr>)
    requires i < |stmts| && before == start + ConditionCode(names, stmts, i)
    requires popped == (if i < |stmts| - 1 && Compile(names, stmts[i]).hasValue then [Op0("pop")] else [])
    requires after == before + Compile(names, stmts[i]).code + popped
    ensures after == start + ConditionCode(names, stmts, i + 1)
  {
    var c := Compile(names, stmts[i]).code;
    assert ConditionCode(names, stmts, i + 1) == ConditionCode(names, stmts, i) + c + popped;
    assert start + (ConditionCode(names, stmts, i) + c + popped) == start + ConditionCode(names, stmts, i) + c + popped;
  }

  /**
   * `toAsmModule`: no image without a CFG; otherwise one size per parameter
   * and per local, the code of every node in order, and every jump patched
   * with the start index of its target.
   */
  method ToAsmModule(info: SubprogramInfo) returns (image: Option<SubprogramImage>)
    ensures image.None? <==> info.cfg.None?
    ensures info.cfg.Some? ==> image == Some(Translate(info.paramTypes, info.localTypes,
      info.paramNames + info.localNames, info.cfg.value.nodes))
  {
    if info.cfg.None? {
      return None;
    }
    var data := AppendSizes([], info.paramTypes);
    assert data == DataItems(info.paramTypes);
    data := AppendSizes(data, info.localTypes);
    var e := EmitAll(info.paramNames + info.localNames, info.cfg.value.nodes);
    var code := PatchJumps(e.code, e.patches, e.starts);
    return Some(SubprogramImage(data, code));
  }

  /** A variable loop of `toAsmModule`: one `type_size_bytes` entry per declared type. */
  method AppendSizes(data0: seq<DataItem>, types: seq<Option<string>>) returns (data: seq<DataItem>)
    ensures data == data0 + DataItems(types)
  {
    data := data0;
    var i := 0;
    while i < |types|
      invariant 0 <= i <= |types| && data == data0 + DataItems(types[..i])
    {
      assert types[..i + 1][..i] == types[..i];
      data := data + [TypeSize(TypeSizeBytes(types[i]))];
      i := i + 1;
    }
    assert types[..i] == types;
  }

  /** The emission loop of `toAsmModule`: each node's start index, then its code. */
  method EmitAll(names: seq<string>, nodes: seq<CfgNode>) returns (r: Emission)
    ensures r == EmitNodes(names, nodes)
  {
    var e := new Emitter(names);
    var starts: seq<nat> := [];
    var i := 0;
    while i < |nodes|
      invariant 0 <= i <= |nodes| && e.names == names
      invariant Emission(e.code, e.patches, starts) == EmitNodes(names, nodes[..i])
    {
      EmitNodesStep(names, nodes, i);
      starts := EmitEntry(e, starts, nodes[i]);
      i := i + 1;
    }
    assert nodes[..i] == nodes;
    r := Emission(e.code, e.patches, starts);
  }

  /** One iteration of the emission loop: the node's start index, then its code. */
  method EmitEntry(e: Emitter, starts0: seq<nat>, node: CfgNode) returns (starts: seq<nat>)
    modifies e
    ensures Emission(e.code, e.patches, starts) == EmitStep(e.names, Emission(old(e.code), old(e.patches), starts0), node)
  {
    ghost var c0, p0 := e.code, e.patches;
    starts := starts0 + [|e.code|];
    e.EmitNode(node);
    assert e.patches == p0 + JumpPatches(NodeJumps(node), |c0| + |NodeBody(e.names, node)|);
    EmitStepIs(e.names, Emission(c0, p0, starts0), node, e.code, e.patches, starts);
  }

  /** The patch loop of `toAsmModule`: each jump operand set to its target's start index. */
  method PatchJumps(code0: seq<Instr>, patches: seq<JumpPatch>, starts: seq<nat>) returns (code: seq<Instr>)
    requires PatchesIn(patches, |code0|)
    ensures code == PatchAll(code0, patches, starts, |patches|)
  {
    code := code0;
    var k := 0;
    while k < |patches|
      invariant 0 <= k <= |patches| && code == PatchAll(code0, patches, starts, k)
    {
      var p := patches[k];
      var target := if p.target < |starts| then starts[p.target] else 0;
      var ins := code[p.instrIndex];
      if p.operandIndex < |ins.operands| {
        code := code[p.instrIndex := ins.(operands := ins.operands[p.operandIndex := FormatInt(target)])];
      }
      k := k + 1;
    }
  }
}
