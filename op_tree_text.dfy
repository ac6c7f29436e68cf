/** Textual rendering of operator trees (`opTypeToString`, `opTreeToString`). */
module OpTreeText {
  import opened Wrappers
  import opened OpTree

  function OpTypeName(k: OpKind): string
  {
    match k
    case Assignment => "ASSIGN"
    case Addition => "ADD"
    case Subtraction => "SUBTRACTION"
    case Multiplication => "MULTIPLICATION"
    case Division => "DIVISION"
    case Modulo => "MODULO"
    case LogicalAnd => "LOGICAL_AND"
    case LogicalOr => "LOGICAL_OR"
    case Equal => "EQUAL"
    case NotEqual => "NOT_EQUAL"
    case LessThan => "LESS_THAN"
    case LessThanOrEqual => "LESS_THAN_OR_EQUAL"
    case GreaterThan => "GREATER_THAN"
    case GreaterThanOrEqual => "GREATER_THAN_OR_EQUAL"
    case UnaryPlus => "UNARY_PLUS"
    case UnaryMinus => "UNARY_MINUS"
    case LogicalNot => "LOGICAL_NOT"
    case FunctionCall => "CALL"
    case ArrayIndex => "ARRAY_INDEX"
    case Identifier => "IDENTIFIER"
    case Literal => "LITERAL"
    case Unknown => "UNKNOWN"
  }

  /** Different kinds are printed under different names. */
  lemma OpTypeNameInjective(a: OpKind, b: OpKind)
    requires OpTypeName(a) == OpTypeName(b)
    ensures a == b
  {
  }

  /** The part printed before the operand list: the type name, then `:text` when the text is non-empty. */
  function Head(n: OpNode): string
  {
    OpTypeName(n.kind) + (if n.text.Some? && n.text.value != "" then ":" + n.text.value else "")
  }

  /** The rendering of a tree; an absent tree prints as `<null>`. */
  function Render(o: Option<OpNode>): string
    decreases o, 1
  {
    match o
    case None => "<null>"
    case Some(n) =>
      Head(n) + (if |n.operands| > 0 then "(" + RenderOperands(n, |n.operands|) + ")" else "")
  }

  /** The first `k` operands of `n`, rendered and separated by ", ". */
  function RenderOperands(n: OpNode, k: nat): string
    requires k <= |n.operands|
    decreases n, k
  {
    if k == 0 then ""
    else if k == 1 then Render(n.operands[0])
    else RenderOperands(n, k - 1) + ", " + Render(n.operands[k - 1])
  }

  lemma RenderOperandsStep(n: OpNode, i: nat)
    requires i < |n.operands|
    ensures RenderOperands(n, i + 1) == RenderOperands(n, i) + (if i > 0 then ", " else "") + Render(n.operands[i])
  {
  }

  lemma SeqAssoc(a: string, b: string, c: string)
    ensures a + b + c == a + (b + c)
  {
  }

  /** `opTreeToStringRec`: appends the rendering of `node` to the builder contents `sb`. */
  method OpTreeToStringRec(node: Option<OpNode>, sb: string) returns (out: string)
    ensures out == sb + Render(node)
    decreases node, 1
  {
    if node.None? {
      return sb + "<null>";
    }
    var n := node.value;
    out := sb + OpTypeName(n.kind);
    if n.text.Some? && n.text.value != "" {
      out := out + ":";
      out := out + n.text.value;
    }
    assert out == sb + Head(n);
    if |n.operands| > 0 {
      out := AppendOperands(node, out);
    }
  }

  /** The operand loop of `opTreeToStringRec`: `(`, the operands separated by `, `, then `)`. */
  method AppendOperands(node: Option<OpNode>, sb: string) returns (out: string)
    requires node.Some?
    ensures out == sb + "(" + RenderOperands(node.value, |node.value.operands|) + ")"
    decreases node, 0
  {
    var n := node.value;
    out := sb + "(";
    ghost var prefix := out;
    var i := 0;
    while i < |n.operands|
      invariant 0 <= i <= |n.operands|
      invariant out == prefix + RenderOperands(n, i)
    {
      ghost var before := RenderOperands(n, i);
      ghost var sep: string := if i > 0 then ", " else "";
      if i > 0 {
        out := out + ", ";
      }
      assert out == prefix + (before + sep);
      ghost var mid := out;
      out := OpTreeToStringRec(n.operands[i], out);
      assert out == mid + Render(n.operands[i]);
      RenderOperandsStep(n, i);
      SeqAssoc(prefix, before + sep, Render(n.operands[i]));
      i := i + 1;
    }
    out := out + ")";
  }

  /** `opTreeToString`. */
  method OpTreeToString(node: Option<OpNode>) returns (s: string)
    ensures s == Render(node)
    ensures node.None? ==> s == "<null>"
    ensures node.Some? ==> OpTypeName(node.value.kind) <= s
  {
    s := OpTreeToStringRec(node, "");
  }
}
