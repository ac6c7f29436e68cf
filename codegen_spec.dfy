/**
 * What the backpatching code generator produces, as functions: the postfix
 * code of an operator tree, of a statement and of a CFG node, the emission of
 * a whole node list with its start indices and jump patches, and the patch
 * pass that writes each jump's target start index into its operand.
 */
module CodegenSpec {
  import opened Wrappers
  import opened Text
  import opened OpTree
  import opened CfgGraph
  import opened AsmText

  /** An instruction: a mnemonic and its operand texts. */
  datatype Instr = Instr(mnemonic: string, operands: seq<string>)

  /** A data item of the image; the generator only ever emits sizes. */
  datatype DataItem = LiteralName(name: string) | TypeSize(bytes: int)

  /** A jump whose operand still has to be set to the start index of node `target`. */
  datatype JumpPatch = JumpPatch(instrIndex: nat, operandIndex: nat, target: nat)

  datatype SubprogramImage = SubprogramImage(dataItems: seq<DataItem>, instructions: seq<Instr>)

  /** Emitted code and whether it leaves a value on the stack (the `bool` of `emit_expression`). */
  datatype Emitted = Emitted(code: seq<Instr>, hasValue: bool)

  function Op0(m: string): Instr { Instr(m, []) }

  function Op1(m: string, a: string): Instr { Instr(m, [a]) }

  // ---------------------------------------------------------------------------
  // emit_expression and its helpers

  /** `emit_expression`: nothing for a NULL node. */
  function Compile(names: seq<string>, o: Option<OpNode>): Emitted
    decreases o, 2
  {
    match o
    case None => Emitted([], false)
    case Some(n) => CompileNode(names, n)
  }

  /** The cases of `emit_expression` for a non-NULL node. */
  function CompileNode(names: seq<string>, n: OpNode): Emitted
    decreases n, 1
  {
    match n.kind
    case Literal => Emitted([LiteralCode(n.text)], true)
    case Identifier =>
      var idx := VarIndex(names, n.text);
      Emitted([if idx >= 0 then Op1("ldg", FormatInt(idx)) else Op1("pushi", "0")], true)
    case Assignment =>
      if |n.operands| >= 2 then Emitted(Compile(names, n.operands[1]).code + [StoreCode(names, n.operands[0])], false)
      else Emitted([], false)
    case Addition => Fold(names, n, "add")
    case Subtraction => Fold(names, n, "sub")
    case Multiplication => Fold(names, n, "mul")
    case Division => Fold(names, n, "div")
    case Modulo => Fold(names, n, "mod")
    case LogicalAnd => Fold(names, n, "and")
    case LogicalOr => Fold(names, n, "or")
    case Equal => Fold(names, n, "eq")
    case NotEqual => Fold(names, n, "ne")
    case LessThan => Fold(names, n, "lt")
    case LessThanOrEqual => Fold(names, n, "le")
    case GreaterThan => Fold(names, n, "gt")
    case GreaterThanOrEqual => Fold(names, n, "ge")
    case UnaryPlus =>
      if |n.operands| > 0 then Compile(names, n.operands[0]) else Emitted([], false)
    case UnaryMinus =>
      if |n.operands| > 0 then Emitted([Op1("pushi", "0")] + Compile(names, n.operands[0]).code + [Op0("sub")], true)
      else Emitted([], false)
    case LogicalNot =>
      if |n.operands| > 0 then Emitted(Compile(names, n.operands[0]).code + [Op1("pushi", "0"), Op0("eq")], true)
      else Emitted([], false)
    case FunctionCall => CallCode(names, n)
    case ArrayIndex => Sequence(names, n)
    case Unknown => Sequence(names, n)
  }

  /** A literal: `pushb` for true/false, `pushi` of the parsed value, `pushi 0` otherwise. */
  function LiteralCode(text: Option<string>): Instr
  {
    if text == Some("true") then Op1("pushb", "1")
    else if text == Some("false") then Op1("pushb", "0")
    else
      match ParseIntLiteral(text)
      case Some(v) => Op1("pushi", FormatInt(v))
      case None => Op1("pushi", "0")
  }

  /** The store of an assignment: `stg` into a known identifier, otherwise `pop`. */
  function StoreCode(names: seq<string>, target: Option<OpNode>): Instr
  {
    if target.Some? && target.value.kind == Identifier && VarIndex(names, target.value.text) >= 0 then
      Op1("stg", FormatInt(VarIndex(names, target.value.text)))
    else Op0("pop")
  }

  /** `emit_binary_left_fold`: nothing without operands, else op0 then (op_i, m) for every later operand. */
  function Fold(names: seq<string>, n: OpNode, m: string): Emitted
    decreases n, 0
  {
    if |n.operands| == 0 then Emitted([], false)
    else Emitted(Compile(names, n.operands[0]).code + FoldTail(names, n, m, |n.operands|), true)
  }

  /** The fold loop after `i` operands. */
  function FoldTail(names: seq<string>, n: OpNode, m: string, i: nat): seq<Instr>
    requires 1 <= i <= |n.operands|
    decreases n, 0, i
  {
    if i == 1 then [] else FoldTail(names, n, m, i - 1) + Compile(names, n.operands[i - 1]).code + [Op0(m)]
  }

  /** `emit_function_call`: out, in, setport, or any other call whose argument values are popped. */
  function CallCode(names: seq<string>, n: OpNode): Emitted
    decreases n, 0
  {
    if n.text.None? then Emitted([], false)
    else if n.text.value == "out" then
      if |n.operands| == 0 then Emitted([Op0("out")], false)
      else Emitted(OutArgs(names, n, |n.operands|), false)
    else if n.text.value == "in" then Emitted([Op0("in")], true)
    else if n.text.value == "setport" then Emitted(SetportCode(names, n), false)
    else Emitted(PoppedArgs(names, n, |n.operands|), false)
  }

  /** `setport` with one literal the literal parser accepts is immediate, otherwise it takes the stack top. */
  function SetportCode(names: seq<string>, n: OpNode): seq<Instr>
    decreases n, 0, 0
  {
    var single := |n.operands| == 1 && n.operands[0].Some?;
    if single && n.operands[0].value.kind == Literal && ParseIntLiteral(n.operands[0].value.text).Some? then
      [Op1("setport", FormatInt(ParseIntLiteral(n.operands[0].value.text).value))]
    else if single then Compile(names, n.operands[0]).code + [Op0("setport")]
    else [Op0("setport")]
  }

  /** The `out` loop after `i` arguments: each argument followed by one `out`. */
  function OutArgs(names: seq<string>, n: OpNode, i: nat): seq<Instr>
    requires i <= |n.operands|
    decreases n, 0, i
  {
    if i == 0 then [] else OutArgs(names, n, i - 1) + Compile(names, n.operands[i - 1]).code + [Op0("out")]
  }

  /** The loop of an ordinary call after `i` arguments: each value-reporting argument is popped. */
  function PoppedArgs(names: seq<string>, n: OpNode, i: nat): seq<Instr>
    requires i <= |n.operands|
    decreases n, 0, i
  {
    if i == 0 then []
    else
      var e := Compile(names, n.operands[i - 1]);
      PoppedArgs(names, n, i - 1) + e.code + (if e.hasValue then [Op0("pop")] else [])
  }

  /** The default case: operands in order, all values but the last popped; `pushi 0` when there are none. */
  function Sequence(names: seq<string>, n: OpNode): Emitted
    decreases n, 0
  {
    if |n.operands| == 0 then Emitted([Op1("pushi", "0")], true)
    else SequencePrefix(names, n, |n.operands|)
  }

  /** The default-case loop after `i` operands; the value flag is that of the last one emitted. */
  function SequencePrefix(names: seq<string>, n: OpNode, i: nat): Emitted
    requires i <= |n.operands|
    decreases n, 0, i
  {
    if i == 0 then Emitted([], false)
    else
      var e := Compile(names, n.operands[i - 1]);
      var pop := i - 1 < |n.operands| - 1 && e.hasValue;
      Emitted(SequencePrefix(names, n, i - 1).code + e.code + (if pop then [Op0("pop")] else []), e.hasValue)
  }

  /** `emit_statement`: an assignment as it is, any other value-reporting expression followed by `pop`. */
  function StatementCode(names: seq<string>, o: Option<OpNode>): seq<Instr>
  {
    match o
    case None => []
    case Some(n) =>
      var e := CompileNode(names, n);
      if n.kind == Assignment then e.code
      else e.code + (if e.hasValue then [Op0("pop")] else [])
  }

  // ---------------------------------------------------------------------------
  // emit_node, emit_jump

  /** A jump of a node: its mnemonic and the node it goes to. */
  datatype Jump = Jump(mnemonic: string, target: nat)

  predicate IsConditional(k: NodeKind)
  {
    k == If || k == While || k == RepeatCondition
  }

  /** The condition code of a branching node: every value but the last popped. */
  function ConditionCode(names: seq<string>, stmts: seq<Option<OpNode>>, i: nat): seq<Instr>
    requires i <= |stmts|
  {
    if i == 0 then []
    else
      var e := Compile(names, stmts[i - 1]);
      ConditionCode(names, stmts, i - 1) + e.code + (if i - 1 < |stmts| - 1 && e.hasValue then [Op0("pop")] else [])
  }

  /** The statement code of a plain node. */
  function StatementsCode(names: seq<string>, stmts: seq<Option<OpNode>>, i: nat): seq<Instr>
    requires i <= |stmts|
  {
    if i == 0 then [] else StatementsCode(names, stmts, i - 1) + StatementCode(names, stmts[i - 1])
  }

  /** What a node emits before its jumps: `halt` for Exit, otherwise its statements or condition. */
  function NodeBody(names: seq<string>, node: CfgNode): seq<Instr>
  {
    if node.kind == Exit then [Op0("halt")]
    else if IsConditional(node.kind) then ConditionCode(names, node.statements, |node.statements|)
    else StatementsCode(names, node.statements, |node.statements|)
  }

  /** The jumps `emit_node` emits after the body. */
  function NodeJumps(node: CfgNode): seq<Jump>
  {
    if node.kind == Exit then []
    else if IsConditional(node.kind) then
      match (node.nextDefault, node.nextConditional)
      case (Some(d), Some(c)) => [Jump("jz", d), Jump("jmp", c)]
      case (None, Some(c)) => [Jump("jnz", c)]
      case (Some(d), None) => [Jump("jmp", d)]
      case (None, None) => []
    else if node.nextDefault.Some? then [Jump("jmp", node.nextDefault.value)]
    else if node.nextConditional.Some? then [Jump("jmp", node.nextConditional.value)]
    else []
  }

  /** `emit_jump` instructions: each with the placeholder operand "0". */
  function JumpCode(js: seq<Jump>): (r: seq<Instr>)
    ensures |r| == |js|
    ensures forall k :: 0 <= k < |js| ==> r[k] == Op1(js[k].mnemonic, "0")
  {
    if js == [] then [] else JumpCode(js[..|js| - 1]) + [Op1(js[|js| - 1].mnemonic, "0")]
  }

  /** The patches `emit_jump` records when the jumps are emitted from index `at` on. */
  function JumpPatches(js: seq<Jump>, at: nat): (r: seq<JumpPatch>)
    ensures |r| == |js|
    ensures forall k :: 0 <= k < |js| ==> r[k] == JumpPatch(at + k, 0, js[k].target)
  {
    if js == [] then [] else JumpPatches(js[..|js| - 1], at) + [JumpPatch(at + |js| - 1, 0, js[|js| - 1].target)]
  }

  function NodeCode(names: seq<string>, node: CfgNode): seq<Instr>
  {
    NodeBody(names, node) + JumpCode(NodeJumps(node))
  }

  // ---------------------------------------------------------------------------
  // toAsmModule

  /** The first pass over the node list: code, patches and each node's start index. */
  datatype Emission = Emission(code: seq<Instr>, patches: seq<JumpPatch>, starts: seq<nat>)

  function EmitNodes(names: seq<string>, nodes: seq<CfgNode>): (r: Emission)
    ensures |r.starts| == |nodes|
    ensures PatchesIn(r.patches, |r.code|)
  {
    if nodes == [] then Emission([], [], []) else EmitStep(names, EmitNodes(names, nodes[..|nodes| - 1]), nodes[|nodes| - 1])
  }

  /** One iteration of the emission loop: record the start index, then emit the node. */
  function EmitStep(names: seq<string>, e: Emission, node: CfgNode): Emission
  {
    Emission(e.code + NodeCode(names, node),
      e.patches + JumpPatches(NodeJumps(node), |e.code| + |NodeBody(names, node)|),
      e.starts + [|e.code|])
  }

  /** The emission after one node, recognised from its three parts. */
  lemma EmitStepIs(names: seq<string>, e: Emission, node: CfgNode, code: seq<Instr>, patches: seq<JumpPatch>, starts: seq<nat>)
    requires code == e.code + NodeCode(names, node) && starts == e.starts + [|e.code|]
    requires patches == e.patches + JumpPatches(NodeJumps(node), |e.code| + |NodeBody(names, node)|)
    ensures Emission(code, patches, starts) == EmitStep(names, e, node)
  {
  }

  /** `EmitNodes` over one more node of a list. */
  lemma EmitNodesStep(names: seq<string>, nodes: seq<CfgNode>, i: nat)
    requires i < |nodes|
    ensures EmitNodes(names, nodes[..i + 1]) == EmitStep(names, EmitNodes(names, nodes[..i]), nodes[i])
  {
    assert nodes[..i + 1][..i] == nodes[..i];
  }

  /** `find_node_start`, with a target that is not a node of the list read as 0. */
  function StartOf(starts: seq<nat>, target: nat): nat
  {
    if target < |starts| then starts[target] else 0
  }

  /** One step of the patch loop: the operand is overwritten only when the instruction has it. */
  function ApplyPatch(code: seq<Instr>, p: JumpPatch, starts: seq<nat>): (r: seq<Instr>)
    requires p.instrIndex < |code|
    ensures |r| == |code|
  {
    var ins := code[p.instrIndex];
    if p.operandIndex < |ins.operands| then
      code[p.instrIndex := ins.(operands := ins.operands[p.operandIndex := FormatInt(StartOf(starts, p.target))])]
    else code
  }

  predicate PatchesIn(patches: seq<JumpPatch>, n: nat)
  {
    forall k :: 0 <= k < |patches| ==> patches[k].instrIndex < n
  }

  /** The patch loop after the first `i` patches. */
  function PatchAll(code: seq<Instr>, patches: seq<JumpPatch>, starts: seq<nat>, i: nat): (r: seq<Instr>)
    requires i <= |patches| && PatchesIn(patches, |code|)
    ensures |r| == |code|
  {
    if i == 0 then code else ApplyPatch(PatchAll(code, patches, starts, i - 1), patches[i - 1], starts)
  }

  /** One size per variable, in the order of the variable table. */
  function DataItems(types: seq<Option<string>>): (r: seq<DataItem>)
    ensures |r| == |types|
    ensures forall k :: 0 <= k < |types| ==> r[k] == TypeSize(TypeSizeBytes(types[k]))
  {
    if types == [] then [] else DataItems(types[..|types| - 1]) + [TypeSize(TypeSizeBytes(types[|types| - 1]))]
  }

  /**
   * `toAsmModule` for a subprogram with a CFG: one size per variable
   * (parameters, then locals), and the emitted code with every jump patched
   * to its target's start index.
   */
  function Translate(paramTypes: seq<Option<string>>, localTypes: seq<Option<string>>, names: seq<string>, nodes: seq<CfgNode>): SubprogramImage
  {
    var e := EmitNodes(names, nodes);
    SubprogramImage(DataItems(paramTypes) + DataItems(localTypes), PatchAll(e.code, e.patches, e.starts, |e.patches|))
  }
}
