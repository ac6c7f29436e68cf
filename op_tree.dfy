/**
 * The expression normaliser: turns a labelled syntax subtree into an operator
 * tree, unwrapping wrapper labels and re-associating binary chains to the left.
 */
module OpTree {
  import opened Wrappers
  import opened Syntax

  datatype OpKind =
    | Assignment
    | Addition | Subtraction | Multiplication | Division | Modulo
    | LogicalAnd | LogicalOr
    | Equal | NotEqual | LessThan | LessThanOrEqual | GreaterThan | GreaterThanOrEqual
    | UnaryPlus | UnaryMinus | LogicalNot
    | FunctionCall | ArrayIndex | Identifier | Literal | Unknown

  /**
   * An operator node: its kind, its ordered operands (an operand may be absent,
   * `None`, where a builder produced no tree) and its optional text.
   */
  datatype OpNode = OpNode(kind: OpKind, operands: seq<Option<OpNode>>, text: Option<string>)

  /** The six associativity classes of the binary kinds. */
  datatype AssocClass = Additive | Multiplicative | Conjunctive | Disjunctive | Equality | Relational

  /** Independent statement of the classes: which class a binary kind belongs to. */
  function ClassOf(k: OpKind): Option<AssocClass>
  {
    match k
    case Addition | Subtraction => Some(Additive)
    case Multiplication | Division | Modulo => Some(Multiplicative)
    case LogicalAnd => Some(Conjunctive)
    case LogicalOr => Some(Disjunctive)
    case Equal | NotEqual => Some(Equality)
    case LessThan | LessThanOrEqual | GreaterThan | GreaterThanOrEqual => Some(Relational)
    case _ => None
  }

  predicate IsBinary(k: OpKind) { ClassOf(k).Some? }

  /** Whether two kinds may be re-associated with each other. */
  predicate IsSameAssociativeGroup(left: OpKind, right: OpKind)
    ensures IsSameAssociativeGroup(left, right) <==> IsBinary(left) && ClassOf(left) == ClassOf(right)
  {
    if left == Addition || left == Subtraction then
      right == Addition || right == Subtraction
    else if left == Multiplication || left == Division || left == Modulo then
      right == Multiplication || right == Division || right == Modulo
    else if left == LogicalAnd then
      right == LogicalAnd
    else if left == LogicalOr then
      right == LogicalOr
    else if left == Equal || left == NotEqual then
      right == Equal || right == NotEqual
    else if left == LessThan || left == LessThanOrEqual || left == GreaterThan || left == GreaterThanOrEqual then
      right == LessThan || right == LessThanOrEqual || right == GreaterThan || right == GreaterThanOrEqual
    else
      false
  }

  lemma SameGroupSymmetric(a: OpKind, b: OpKind)
    ensures IsSameAssociativeGroup(a, b) == IsSameAssociativeGroup(b, a)
  {
  }

  lemma SameGroupReflexiveOnBinary(a: OpKind)
    ensures IsSameAssociativeGroup(a, a) <==> IsBinary(a)
  {
  }

  // ---------------------------------------------------------------------------
  // Left-associative rotation

  /** In-order reading of an operator tree: every two-operand node is an inner operator. */
  datatype Token = Operator(kind: OpKind, text: Option<string>) | Atom(node: OpNode) | NullOperand

  function InOrder(o: Option<OpNode>): seq<Token>
  {
    match o
    case None => [NullOperand]
    case Some(n) =>
      if |n.operands| == 2 then InOrder(n.operands[0]) + [Operator(n.kind, n.text)] + InOrder(n.operands[1])
      else [Atom(n)]
  }

  /** Length of the chain of two-operand nodes down the right operands. */
  function RightSpine(o: Option<OpNode>): nat
  {
    if o.Some? && |o.value.operands| == 2 then 1 + RightSpine(o.value.operands[1]) else 0
  }

  /** The rotation loop's guard: a right operand with two operands in the same class. */
  predicate CanRotate(n: OpNode)
  {
    |n.operands| == 2 && n.operands[1].Some? && |n.operands[1].value.operands| == 2
    && IsSameAssociativeGroup(n.kind, n.operands[1].value.kind)
  }

  /** One rotation: `A(x, B(m, y))` becomes `B(A(x, m), y)`; both nodes keep kind and text. */
  function Rotate(n: OpNode): (r: OpNode)
    requires CanRotate(n)
    ensures RightSpine(Some(r)) < RightSpine(Some(n))
    ensures InOrder(Some(r)) == InOrder(Some(n))
  {
    var right := n.operands[1].value;
    var x, m, y := InOrder(n.operands[0]), InOrder(right.operands[0]), InOrder(right.operands[1]);
    assert InOrder(Some(n)) == x + [Operator(n.kind, n.text)] + (m + [Operator(right.kind, right.text)] + y);
    OpNode(right.kind, [Some(OpNode(n.kind, [n.operands[0], right.operands[0]], n.text)), right.operands[1]], right.text)
  }

  /**
   * The result of the rotation loop: rotate until the right operand is no longer a
   * two-operand node of the same class. The in-order sequence is unchanged, the
   * result can no longer be rotated, and a node without two operands is returned
   * as it is.
   */
  function LeftAssociate(n: OpNode): (r: OpNode)
    ensures InOrder(Some(r)) == InOrder(Some(n))
    ensures !CanRotate(r)
    ensures |n.operands| != 2 ==> r == n
    ensures |r.operands| == |n.operands|
    decreases RightSpine(Some(n))
  {
    if CanRotate(n) then LeftAssociate(Rotate(n)) else n
  }

  /** `leftAssociateBinary`: the in-place rotation loop, advancing `current` up the new spine. */
  method LeftAssociateBinary(node: Option<OpNode>) returns (r: Option<OpNode>)
    ensures node.None? ==> r.None?
    ensures node.Some? ==> r == Some(LeftAssociate(node.value))
  {
    if node.None? || |node.value.operands| != 2 {
      return node;
    }
    var current := node.value;
    while |current.operands| == 2
      invariant LeftAssociate(current) == LeftAssociate(node.value)
      decreases RightSpine(Some(current))
    {
      var right := current.operands[1];
      if right.None? || |right.value.operands| != 2 {
        break;
      }
      if !IsSameAssociativeGroup(current.kind, right.value.kind) {
        break;
      }
      var middle := right.value.operands[0];
      current := OpNode(right.value.kind,
                        [Some(OpNode(current.kind, [current.operands[0], middle], current.text)), right.value.operands[1]],
                        right.value.text);
    }
    r := Some(current);
  }

  /** A node that is not a two-operand node: a leaf of the in-order reading. */
  predicate IsLeaf(o: Option<OpNode>) { o.None? || |o.value.operands| != 2 }

  /** `x0 op (x1 op (... op xn))` with every operator in class `c` and leaf left operands. */
  predicate RightChain(o: Option<OpNode>, c: AssocClass)
  {
    o.Some? && |o.value.operands| == 2 && ClassOf(o.value.kind) == Some(c)
    && IsLeaf(o.value.operands[0])
    && (IsLeaf(o.value.operands[1]) || RightChain(o.value.operands[1], c))
  }

  /** `((x0 op x1) op ...) op xn` with every operator in class `c` and leaf right operands. */
  predicate LeftChain(o: Option<OpNode>, c: AssocClass)
  {
    o.Some? && |o.value.operands| == 2 && ClassOf(o.value.kind) == Some(c)
    && IsLeaf(o.value.operands[1])
    && (IsLeaf(o.value.operands[0]) || LeftChain(o.value.operands[0], c))
  }

  lemma {:induction false} LeftAssociateMixed(n: OpNode, c: AssocClass)
    requires |n.operands| == 2 && ClassOf(n.kind) == Some(c)
    requires IsLeaf(n.operands[0]) || LeftChain(n.operands[0], c)
    requires IsLeaf(n.operands[1]) || RightChain(n.operands[1], c)
    ensures LeftChain(Some(LeftAssociate(n)), c)
    decreases RightSpine(Some(n))
  {
    if CanRotate(n) {
      var right := n.operands[1].value;
      var inner := OpNode(n.kind, [n.operands[0], right.operands[0]], n.text);
      assert LeftChain(Some(inner), c);
      LeftAssociateMixed(Rotate(n), c);
    }
  }

  /**
   * One run of the rotation loop turns a right-nested chain of one class,
   * with leaves as left operands, into the left-nested chain over the same
   * in-order sequence.
   */
  lemma RightChainBecomesLeftChain(n: OpNode, c: AssocClass)
    requires RightChain(Some(n), c)
    ensures LeftChain(Some(LeftAssociate(n)), c)
    ensures InOrder(Some(LeftAssociate(n))) == InOrder(Some(n))
  {
    LeftAssociateMixed(n, c);
  }

  // ---------------------------------------------------------------------------
  // Re-associating every node

  /**
   * The rotation loop with each node it moves down re-associated as well:
   * after `A(x, B(m, y))` becomes `B(A(x, m), y)`, the new left operand
   * `A(x, m)` is itself rotated before the loop goes on at the new root.
   */
  function LeftAssociateAll(n: OpNode): (r: OpNode)
    ensures InOrder(Some(r)) == InOrder(Some(n))
    ensures !CanRotate(r)
    ensures |n.operands| != 2 ==> r == n
    decreases if |n.operands| == 2 then n.operands[1] else None
  {
    if CanRotate(n) then
      var right := n.operands[1].value;
      var moved := LeftAssociateAll(OpNode(n.kind, [n.operands[0], right.operands[0]], n.text));
      var x, m, y := InOrder(n.operands[0]), InOrder(right.operands[0]), InOrder(right.operands[1]);
      assert InOrder(Some(n)) == x + [Operator(n.kind, n.text)] + (m + [Operator(right.kind, right.text)] + y);
      LeftAssociateAll(OpNode(right.kind, [Some(moved), right.operands[1]], right.text))
    else n
  }

  /** No node of the tree can be rotated: no binary node's right operand is a binary node of its class. */
  predicate Settled(o: Option<OpNode>)
  {
    o.None? || (!CanRotate(o.value) && forall i :: 0 <= i < |o.value.operands| ==> Settled(o.value.operands[i]))
  }

  /** Re-associating a node whose operands are settled settles the whole tree. */
  lemma {:induction false} LeftAssociateAllSettled(n: OpNode)
    requires forall i :: 0 <= i < |n.operands| ==> Settled(n.operands[i])
    ensures Settled(Some(LeftAssociateAll(n)))
    decreases if |n.operands| == 2 then n.operands[1] else None
  {
    if CanRotate(n) {
      var right := n.operands[1].value;
      assert Settled(right.operands[0]) && Settled(right.operands[1]);
      var inner := OpNode(n.kind, [n.operands[0], right.operands[0]], n.text);
      LeftAssociateAllSettled(inner);
      var outer := OpNode(right.kind, [Some(LeftAssociateAll(inner)), right.operands[1]], right.text);
      LeftAssociateAllSettled(outer);
    }
  }

  /** `x0 op x1 op ... op xn` nested in any way, with every operator in class `c`. */
  predicate PureChain(o: Option<OpNode>, c: AssocClass)
  {
    o.Some? && |o.value.operands| == 2 && ClassOf(o.value.kind) == Some(c)
    && (IsLeaf(o.value.operands[0]) || PureChain(o.value.operands[0], c))
    && (IsLeaf(o.value.operands[1]) || PureChain(o.value.operands[1], c))
  }

  /** Re-associating keeps a chain of one class a chain of that class. */
  lemma {:induction false} LeftAssociateAllPure(n: OpNode, c: AssocClass)
    requires PureChain(Some(n), c)
    ensures PureChain(Some(LeftAssociateAll(n)), c)
    decreases if |n.operands| == 2 then n.operands[1] else None
  {
    if CanRotate(n) {
      var right := n.operands[1].value;
      var inner := OpNode(n.kind, [n.operands[0], right.operands[0]], n.text);
      LeftAssociateAllPure(inner, c);
      var outer := OpNode(right.kind, [Some(LeftAssociateAll(inner)), right.operands[1]], right.text);
      LeftAssociateAllPure(outer, c);
    }
  }

  /** A settled chain of one class is left-nested: no right operand can be a chain node of the class. */
  lemma {:induction false} SettledChainIsLeftChain(o: Option<OpNode>, c: AssocClass)
    requires Settled(o) && PureChain(o, c)
    ensures LeftChain(o, c)
    decreases o
  {
    var n := o.value;
    assert Settled(n.operands[0]);
    if !IsLeaf(n.operands[0]) {
      SettledChainIsLeftChain(n.operands[0], c);
    }
  }

  // ---------------------------------------------------------------------------
  // Building the operator tree

  /**
   * How binary nodes are re-associated: `RootOnly` is the rotation loop of
   * `leftAssociateBinary` at the root of each new node, `Throughout` also
   * re-associates every node the loop moves down.
   */
  datatype Rotation = RootOnly | Throughout

  function Associate(mode: Rotation, n: OpNode): (r: OpNode)
    ensures InOrder(Some(r)) == InOrder(Some(n)) && !CanRotate(r)
  {
    if mode == RootOnly then LeftAssociate(n) else LeftAssociateAll(n)
  }

  predicate IsWrapperToken(text: string)
  {
    text == "EXPRESSION" || text == "CONDITION" || text == "UNTIL"
    || text == "IN_BRACES" || text == "VALUE" || text == "ARRAY_ELEMENT_INDEX"
  }

  /** The thirteen binary-operator labels and their kinds. */
  function BinaryKindOf(text: string): (r: Option<OpKind>)
    ensures r.Some? ==> IsBinary(r.value)
  {
    if text == "ADD" then Some(Addition)
    else if text == "SUBTRACT" then Some(Subtraction)
    else if text == "MULTIPLY" then Some(Multiplication)
    else if text == "DIVISION" then Some(Division)
    else if text == "RESIDUE" then Some(Modulo)
    else if text == "AND" then Some(LogicalAnd)
    else if text == "OR" then Some(LogicalOr)
    else if text == "EQUALS" then Some(Equal)
    else if text == "NOT_EQUALS" then Some(NotEqual)
    else if text == "LESS_THAN" then Some(LessThan)
    else if text == "LESS_THAN_OR_EQUALS" then Some(LessThanOrEqual)
    else if text == "MORE_THAN" then Some(GreaterThan)
    else if text == "MORE_THAN_OR_EQUALS" then Some(GreaterThanOrEqual)
    else None
  }

  /** `getIdentifierName`: the first child's text, or the node's own text when it has no children. */
  function GetIdentifierName(t: Tree): string
  {
    if |t.children| > 0 then t.children[0].text else t.text
  }

  /** One operand per child, in order. */
  function BuildOperands(ts: seq<Tree>, mode: Rotation): (r: seq<Option<OpNode>>)
    ensures |r| == |ts| && forall i :: 0 <= i < |ts| ==> r[i] == BuildTree(ts[i], mode)
    decreases ts, 0
  {
    seq(|ts|, i requires 0 <= i < |ts| => BuildTree(ts[i], mode))
  }

  /** `buildOpNodeWithChildren`. */
  function BuildOpNodeWithChildren(kind: OpKind, t: Tree, mode: Rotation): (r: OpNode)
    ensures r.kind == kind && r.text.None? && |r.operands| == |t.children|
    decreases t, 1
  {
    OpNode(kind, BuildOperands(t.children, mode), None)
  }

  /** `buildUnaryOp`: no tree for fewer than two children; child 0 is the operator token. */
  function BuildUnaryOp(t: Tree, mode: Rotation): (r: Option<OpNode>)
    ensures r.None? <==> |t.children| < 2
    ensures r.Some? ==> |r.value.operands| == 1 && r.value.text.None?
                        && r.value.kind in {UnaryPlus, UnaryMinus, LogicalNot, Unknown}
    decreases t, 1
  {
    if |t.children| < 2 then None
    else
      var opText := t.children[0].text;
      var kind := if opText == "+" then UnaryPlus
                  else if opText == "-" then UnaryMinus
                  else if opText == "!" then LogicalNot
                  else Unknown;
      Some(OpNode(kind, [BuildTree(t.children[1], mode)], None))
  }

  /** `buildCallOp`: callee name from child 0, arguments from child 1 (flattened when it is ARGUMENTS). */
  function BuildCallOp(t: Tree, mode: Rotation): (r: OpNode)
    ensures r.kind == FunctionCall && (r.text.Some? <==> |t.children| > 0)
    ensures |t.children| <= 1 ==> r.operands == []
    ensures |t.children| > 1 && t.children[1].text != "ARGUMENTS" ==> |r.operands| == 1
    decreases t, 1
  {
    var name := if |t.children| > 0 then Some(GetIdentifierName(t.children[0])) else None;
    var args := if |t.children| > 1 then
                  (if t.children[1].text == "ARGUMENTS" then BuildOperands(t.children[1].children, mode)
                   else [BuildTree(t.children[1], mode)])
                else [];
    OpNode(FunctionCall, args, name)
  }

  /** `buildOpTree`, with the re-association of binary nodes chosen by `mode`. */
  function BuildTree(t: Tree, mode: Rotation): Option<OpNode>
    decreases t, 2
  {
    if IsWrapperToken(t.text) then
      if |t.children| > 0 then BuildTree(t.children[0], mode) else None
    else if t.text == "ID" || t.text == "ARRAY_ID" then
      Some(OpNode(Identifier, [], Some(GetIdentifierName(t))))
    else if t.text == "ASSIGN" then
      Some(BuildOpNodeWithChildren(Assignment, t, mode))
    else if BinaryKindOf(t.text).Some? then
      Some(Associate(mode, BuildOpNodeWithChildren(BinaryKindOf(t.text).value, t, mode)))
    else if t.text == "UNARY_OPERATION" then
      BuildUnaryOp(t, mode)
    else if t.text == "CALL" then
      Some(BuildCallOp(t, mode))
    else if t.text == "ARRAY_ELEMENT" then
      Some(OpNode(ArrayIndex, BuildOperands(t.children, mode), None))
    else if |t.children| == 0 then
      Some(OpNode(Literal, [], Some(t.text)))
    else
      Some(OpNode(Unknown, BuildOperands(t.children, mode), Some(t.text)))
  }

  /** `buildOpTree` as written: binary nodes are rotated at their root only. */
  function BuildOpTree(t: Tree): Option<OpNode>
  {
    BuildTree(t, RootOnly)
  }

  /** The corrected normaliser: every moved-down node is re-associated as well. */
  function NormaliseTree(t: Tree): Option<OpNode>
  {
    BuildTree(t, Throughout)
  }

  // ---------------------------------------------------------------------------
  // Properties of the normaliser

  /** The root of every normalised tree is settled: its right operand cannot be rotated into it. */
  lemma {:induction false} BuildRootSettled(t: Tree, mode: Rotation)
    ensures BuildTree(t, mode).Some? ==> !CanRotate(BuildTree(t, mode).value)
    decreases t
  {
    if IsWrapperToken(t.text) {
      if |t.children| > 0 {
        BuildRootSettled(t.children[0], mode);
      }
    } else if BinaryKindOf(t.text).None? && BuildTree(t, mode).Some? {
      NonBinaryRoot(t, mode);
    }
  }

  /** A root the normaliser does not build from a binary token is not a binary kind, so it cannot rotate. */
  lemma NonBinaryRoot(t: Tree, mode: Rotation)
    requires !IsWrapperToken(t.text) && BinaryKindOf(t.text).None? && BuildTree(t, mode).Some?
    ensures !IsBinary(BuildTree(t, mode).value.kind) && !CanRotate(BuildTree(t, mode).value)
  {
    var k := BuildTree(t, mode).value.kind;
    NonBinaryKinds();
    if t.text == "ID" || t.text == "ARRAY_ID" {
      assert k == Identifier;
    } else if t.text == "ASSIGN" {
      assert k == Assignment;
    } else if t.text == "UNARY_OPERATION" {
      assert k == UnaryPlus || k == UnaryMinus || k == LogicalNot || k == Unknown;
    } else if t.text == "CALL" {
      assert k == FunctionCall;
    } else if t.text == "ARRAY_ELEMENT" {
      assert k == ArrayIndex;
    } else {
      assert k == Literal || k == Unknown;
    }
  }

  /** The kinds that are not binary operators. */
  lemma NonBinaryKinds()
    ensures forall k :: k in {Assignment, UnaryPlus, UnaryMinus, LogicalNot, FunctionCall, ArrayIndex, Identifier, Literal, Unknown} ==> !IsBinary(k)
  {
  }

  /** With every moved-down node re-associated, no node of a normalised tree can be rotated. */
  lemma {:induction false} NormaliseSettled(t: Tree)
    ensures Settled(NormaliseTree(t))
    decreases t
  {
    if IsWrapperToken(t.text) {
      if |t.children| > 0 {
        NormaliseSettled(t.children[0]);
      }
    } else if t.text == "CALL" && |t.children| > 1 && t.children[1].text == "ARGUMENTS" {
      forall i | 0 <= i < |t.children[1].children| ensures Settled(NormaliseTree(t.children[1].children[i])) {
        NormaliseSettled(t.children[1].children[i]);
      }
      ArgumentsSettled(t);
    } else if t.text == "UNARY_OPERATION" || t.text == "CALL" {
      if |t.children| > 1 {
        NormaliseSettled(t.children[1]);
      }
      OneOperandSettled(t);
    } else {
      forall i | 0 <= i < |t.children| ensures Settled(NormaliseTree(t.children[i])) {
        NormaliseSettled(t.children[i]);
      }
      ChildrenSettled(t);
    }
  }

  /** A call over an ARGUMENTS list is settled once every argument is. */
  lemma ArgumentsSettled(t: Tree)
    requires t.text == "CALL" && |t.children| > 1 && t.children[1].text == "ARGUMENTS"
    requires forall i :: 0 <= i < |t.children[1].children| ==> Settled(NormaliseTree(t.children[1].children[i]))
    ensures Settled(NormaliseTree(t))
  {
    NonBinaryRoot(t, Throughout);
  }

  /** A unary operation, or a call with a single argument, is settled once that operand is. */
  lemma OneOperandSettled(t: Tree)
    requires t.text == "UNARY_OPERATION" || (t.text == "CALL" && !(|t.children| > 1 && t.children[1].text == "ARGUMENTS"))
    requires |t.children| > 1 ==> Settled(NormaliseTree(t.children[1]))
    ensures Settled(NormaliseTree(t))
  {
    if NormaliseTree(t).Some? {
      NonBinaryRoot(t, Throughout);
    }
  }

  /** Any other label is settled once every child is: binary nodes by re-association, the rest by their kind. */
  lemma ChildrenSettled(t: Tree)
    requires !IsWrapperToken(t.text) && t.text != "UNARY_OPERATION" && t.text != "CALL"
    requires forall i :: 0 <= i < |t.children| ==> Settled(NormaliseTree(t.children[i]))
    ensures Settled(NormaliseTree(t))
  {
    if BinaryKindOf(t.text).Some? && !(t.text == "ID" || t.text == "ARRAY_ID" || t.text == "ASSIGN") {
      LeftAssociateAllSettled(BuildOpNodeWithChildren(BinaryKindOf(t.text).value, t, Throughout));
    } else {
      NonBinaryRoot(t, Throughout);
    }
  }

  /** A syntax chain of one class: a binary label of class `c` over two children, each a childless token or such a chain. */
  predicate SyntaxChain(t: Tree, c: AssocClass)
  {
    BinaryKindOf(t.text).Some? && ClassOf(BinaryKindOf(t.text).value) == Some(c) && |t.children| == 2
    && (t.children[0].children == [] || SyntaxChain(t.children[0], c))
    && (t.children[1].children == [] || SyntaxChain(t.children[1], c))
  }

  /** A childless token becomes a node without two operands, or no node at all. */
  lemma ChildlessIsLeaf(t: Tree, mode: Rotation)
    requires t.children == []
    ensures IsLeaf(BuildTree(t, mode))
  {
  }

  /** A syntax chain becomes an operator chain of the same class. */
  lemma {:induction false} ChainBuildsPure(t: Tree, c: AssocClass)
    requires SyntaxChain(t, c)
    ensures PureChain(NormaliseTree(t), c)
    decreases t
  {
    forall i | 0 <= i < 2 ensures IsLeaf(NormaliseTree(t.children[i])) || PureChain(NormaliseTree(t.children[i]), c) {
      if t.children[i].children == [] {
        ChildlessIsLeaf(t.children[i], Throughout);
      } else {
        ChainBuildsPure(t.children[i], c);
      }
    }
    var n := BuildOpNodeWithChildren(BinaryKindOf(t.text).value, t, Throughout);
    assert n.operands == [NormaliseTree(t.children[0]), NormaliseTree(t.children[1])];
    BinaryNode(t, Throughout);
    LeftAssociateAllPure(n, c);
  }

  /** A binary label becomes the re-associated node over its normalised children. */
  lemma BinaryNode(t: Tree, mode: Rotation)
    requires BinaryKindOf(t.text).Some?
    ensures BuildTree(t, mode) == Some(Associate(mode, BuildOpNodeWithChildren(BinaryKindOf(t.text).value, t, mode)))
  {
    assert !IsWrapperToken(t.text) && t.text != "ID" && t.text != "ARRAY_ID" && t.text != "ASSIGN";
  }

  /**
   * However the grammar nests a chain of N operands of one class, the
   * re-associating normaliser makes it the left-nested chain of N - 1 nodes;
   * `BinaryKeepsReadingOrder` gives the unchanged in-order reading.
   */
  lemma NormaliseChain(t: Tree, c: AssocClass)
    requires SyntaxChain(t, c)
    ensures LeftChain(NormaliseTree(t), c)
    ensures InOrder(NormaliseTree(t)) == InOrder(BuildOpTree(t))
  {
    ChainBuildsPure(t, c);
    NormaliseSettled(t);
    SettledChainIsLeftChain(NormaliseTree(t), c);
    ChainSameReading(t, c);
  }

  /** A childless token is built the same way whatever the rotation. */
  lemma ChildlessSame(t: Tree)
    requires t.children == []
    ensures BuildTree(t, RootOnly) == BuildTree(t, Throughout)
  {
    assert BuildOperands(t.children, RootOnly) == [] == BuildOperands(t.children, Throughout);
  }

  /** Both rotations read a syntax chain in the same order: they differ only in nesting. */
  lemma {:induction false} ChainSameReading(t: Tree, c: AssocClass)
    requires SyntaxChain(t, c)
    ensures InOrder(NormaliseTree(t)) == InOrder(BuildOpTree(t))
    decreases t
  {
    forall i | 0 <= i < 2 ensures InOrder(NormaliseTree(t.children[i])) == InOrder(BuildOpTree(t.children[i])) {
      if t.children[i].children == [] {
        ChildlessSame(t.children[i]);
      } else {
        ChainSameReading(t.children[i], c);
      }
    }
    BinaryKeepsReadingOrder(t, RootOnly);
    BinaryKeepsReadingOrder(t, Throughout);
  }

  /**
   * The shapes for which the normaliser yields no tree: a childless wrapper, a
   * wrapper whose first child yields none, and a unary operation with fewer than
   * two children. Every other syntax tree is normalised to some operator tree.
   */
  predicate YieldsNoTree(t: Tree)
  {
    (IsWrapperToken(t.text) && (|t.children| == 0 || YieldsNoTree(t.children[0])))
    || (!IsWrapperToken(t.text) && t.text == "UNARY_OPERATION" && |t.children| < 2)
  }

  lemma {:induction false} BuildFailsOnlyOn(t: Tree, mode: Rotation)
    ensures BuildTree(t, mode).None? <==> YieldsNoTree(t)
    decreases t
  {
    if IsWrapperToken(t.text) && |t.children| > 0 {
      BuildFailsOnlyOn(t.children[0], mode);
    }
  }

  /** A wrapper is transparent: only its first child matters, whatever follows it. */
  lemma WrapperIgnoresLaterChildren(w: string, first: Tree, rest: seq<Tree>, mode: Rotation)
    requires IsWrapperToken(w)
    ensures BuildTree(Tree(w, [first] + rest), mode) == BuildTree(first, mode)
  {
  }

  /** A two-child binary node reads, in order, as its normalised left child, the operator, its normalised right child. */
  lemma BinaryKeepsReadingOrder(t: Tree, mode: Rotation)
    requires BinaryKindOf(t.text).Some? && !IsWrapperToken(t.text) && |t.children| == 2
    ensures BuildTree(t, mode).Some?
    ensures InOrder(BuildTree(t, mode))
         == InOrder(BuildTree(t.children[0], mode)) + [Operator(BinaryKindOf(t.text).value, None)] + InOrder(BuildTree(t.children[1], mode))
  {
    var built := BuildOpNodeWithChildren(BinaryKindOf(t.text).value, t, mode);
    assert built.operands == [BuildTree(t.children[0], mode), BuildTree(t.children[1], mode)];
    assert BuildTree(t, mode) == Some(Associate(mode, built));
  }

  function Lit(s: string): Tree { Tree(s, []) }

  function Num(s: string): Option<OpNode> { Some(OpNode(Literal, [], Some(s))) }

  function Sub(a: Option<OpNode>, b: Option<OpNode>): Option<OpNode> { Some(OpNode(Subtraction, [a, b], None)) }

  /** `10 - (3 - 2)` as a right-recursive grammar nests it becomes `(10 - 3) - 2`. */
  lemma SubtractionChainExample()
    ensures BuildOpTree(Tree("SUBTRACT", [Lit("10"), Tree("SUBTRACT", [Lit("3"), Lit("2")])]))
         == Sub(Sub(Num("10"), Num("3")), Num("2"))
  {
    LiteralLeaf("10", RootOnly);
    LiteralLeaf("3", RootOnly);
    LiteralLeaf("2", RootOnly);
    var inner := Tree("SUBTRACT", [Lit("3"), Lit("2")]);
    SubtractPair(Lit("3"), Lit("2"), RootOnly);
    assert BuildOpTree(inner) == Sub(Num("3"), Num("2"));
    SubtractPair(Lit("10"), inner, RootOnly);
    var rotated := Sub(Sub(Num("10"), Num("3")), Num("2")).value;
    assert Rotate(Sub(Num("10"), Sub(Num("3"), Num("2"))).value) == rotated;
    assert !CanRotate(rotated);
  }

  /**
   * With four operands the rotation at the root leaves the node it moved down
   * right-nested: `10 - (3 - (2 - 1))` becomes `(10 - (3 - 2)) - 1`, which is
   * neither a left chain nor settled, though the syntax is a chain of one class.
   */
  lemma FourOperandChainExample()
    ensures SyntaxChain(FourChain(), Additive)
    ensures BuildOpTree(FourChain()) == Sub(Sub(Num("10"), Sub(Num("3"), Num("2"))), Num("1"))
    ensures !LeftChain(BuildOpTree(FourChain()), Additive) && !Settled(BuildOpTree(FourChain()))
  {
    LiteralLeaf("10", RootOnly);
    LiteralLeaf("3", RootOnly);
    LiteralLeaf("2", RootOnly);
    LiteralLeaf("1", RootOnly);
    var t1 := Tree("SUBTRACT", [Lit("2"), Lit("1")]);
    var t2 := Tree("SUBTRACT", [Lit("3"), t1]);
    SubtractPair(Lit("2"), Lit("1"), RootOnly);
    var b1 := Sub(Num("2"), Num("1"));
    assert BuildOpTree(t1) == b1;
    SubtractPair(Lit("3"), t1, RootOnly);
    var b2 := Sub(Sub(Num("3"), Num("2")), Num("1"));
    assert Rotate(Sub(Num("3"), b1).value) == b2.value;
    assert !CanRotate(b2.value);
    assert BuildOpTree(t2) == b2;
    SubtractPair(Lit("10"), t2, RootOnly);
    var b3 := Sub(Sub(Num("10"), Sub(Num("3"), Num("2"))), Num("1"));
    assert Rotate(Sub(Num("10"), b2).value) == b3.value;
    assert !CanRotate(b3.value);
    assert CanRotate(Sub(Num("10"), Sub(Num("3"), Num("2"))).value);
  }

  /** The re-associating normaliser makes the same four-operand chain `((10 - 3) - 2) - 1`. */
  lemma FourOperandChainNormalised()
    ensures NormaliseTree(FourChain()) == Sub(Sub(Sub(Num("10"), Num("3")), Num("2")), Num("1"))
  {
    LiteralLeaf("10", Throughout);
    LiteralLeaf("3", Throughout);
    LiteralLeaf("2", Throughout);
    LiteralLeaf("1", Throughout);
    var t1 := Tree("SUBTRACT", [Lit("2"), Lit("1")]);
    var t2 := Tree("SUBTRACT", [Lit("3"), t1]);
    SubtractPair(Lit("2"), Lit("1"), Throughout);
    var b1 := Sub(Num("2"), Num("1"));
    assert NormaliseTree(t1) == b1;
    SubtractPair(Lit("3"), t1, Throughout);
    var b2 := Sub(Sub(Num("3"), Num("2")), Num("1"));
    assert LeftAssociateAll(Sub(Num("3"), Num("2")).value) == Sub(Num("3"), Num("2")).value;
    assert LeftAssociateAll(b2.value) == b2.value;
    assert NormaliseTree(t2) == b2;
    SubtractPair(Lit("10"), t2, Throughout);
    var ten3 := Sub(Num("10"), Num("3"));
    assert LeftAssociateAll(ten3.value) == ten3.value;
    var ten32 := Sub(ten3, Num("2"));
    assert LeftAssociateAll(ten32.value) == ten32.value;
    assert LeftAssociateAll(Sub(Num("10"), Sub(Num("3"), Num("2"))).value) == ten32.value;
    var b3 := Sub(ten32, Num("1"));
    assert LeftAssociateAll(b3.value) == b3.value;
  }

  /** `10 - (3 - (2 - 1))` as a right-recursive grammar nests it. */
  function FourChain(): Tree
  {
    Tree("SUBTRACT", [Lit("10"), Tree("SUBTRACT", [Lit("3"), Tree("SUBTRACT", [Lit("2"), Lit("1")])])])
  }

  /** A childless token that is no other kind of leaf is a literal. */
  lemma LiteralLeaf(s: string, mode: Rotation)
    requires s == "10" || s == "3" || s == "2" || s == "1"
    ensures BuildTree(Lit(s), mode) == Num(s)
  {
  }

  /** A SUBTRACT node is the re-associated subtraction of its two normalised children. */
  lemma SubtractPair(a: Tree, b: Tree, mode: Rotation)
    ensures BuildTree(Tree("SUBTRACT", [a, b]), mode) == Some(Associate(mode, OpNode(Subtraction, [BuildTree(a, mode), BuildTree(b, mode)], None)))
  {
    var t := Tree("SUBTRACT", [a, b]);
    assert !IsWrapperToken(t.text) && BinaryKindOf(t.text) == Some(Subtraction);
    assert t.text != "ID" && t.text != "ARRAY_ID" && t.text != "ASSIGN";
    assert BuildOperands(t.children, mode) == [BuildTree(a, mode), BuildTree(b, mode)];
  }
}
