/**
 * The part of `printSubprogramImage` that decides what the listing shows:
 * which `jmp` instructions are dropped because they only go to the next
 * instruction, which instructions need a label, and the name of each label.
 * The writing itself is not modelled.
 */
module ImagePrinter {
  import opened Wrappers
  import opened Text
  import opened AsmText
  import opened CfgGraph
  import opened CodegenSpec
  import opened CodegenProofs

  /** The operand of a jump read as an instruction index. */
  function OperandIndex(ins: Instr): Option<int>
  {
    if |ins.operands| > 0 then ParseIndexOperand(Some(ins.operands[0])) else None
  }

  /** A `jmp`, in any letter case, whose one operand is the index of the next instruction. */
  predicate Skipped(code: seq<Instr>, i: nat)
    requires i < |code|
  {
    SameIgnoringCase(code[i].mnemonic, "jmp") && |code[i].operands| == 1 && OperandIndex(code[i]) == Some(i + 1)
  }

  /** Instruction `i` is a jump that is printed and goes to instruction `t`. */
  predicate JumpsTo(code: seq<Instr>, i: nat, t: nat)
    requires i < |code|
  {
    !Skipped(code, i) && IsJumpMnemonic(code[i].mnemonic) && OperandIndex(code[i]) == Some(t) && t < |code|
  }

  /** Instruction `t` is the target of some printed jump. */
  predicate Needed(code: seq<Instr>, t: nat)
  {
    exists i :: 0 <= i < |code| && JumpsTo(code, i, t)
  }

  /** Which instructions are the target of a printed jump. */
  function NeededFlags(code: seq<Instr>): (r: seq<bool>)
    ensures |r| == |code| && forall t :: 0 <= t < |code| ==> (r[t] <==> Needed(code, t))
  {
    seq(|code|, t requires 0 <= t < |code| => Needed(code, t))
  }

  /** How many of the indices 1 .. i-1 need a label. */
  function CountNeeded(needed: seq<bool>, i: nat): (r: nat)
    requires i <= |needed|
    ensures r < i || i == 0
  {
    if i <= 1 then 0 else CountNeeded(needed, i - 1) + (if needed[i - 1] then 1 else 0)
  }

  /** The label of instruction `i`: the entry label at 0, then L1, L2, ... at the targets in index order. */
  function LabelAt(needed: seq<bool>, entry: string, i: nat): Option<string>
    requires i < |needed|
  {
    if i == 0 then Some(entry)
    else if needed[i] then Some("L" + FormatInt(CountNeeded(needed, i) + 1))
    else None
  }

  /** The label table `printSubprogramImage` computes before printing. */
  datatype LabelPlan = LabelPlan(entry: string, skip: seq<bool>, needed: seq<bool>, labels: seq<Option<string>>)

  /**
   * The skip, label-needed and label-name arrays of `printSubprogramImage`,
   * with the sanitised entry label. An empty image has no arrays.
   */
  method PlanLabels(code: seq<Instr>, entryLabel: Option<string>) returns (plan: LabelPlan)
    ensures plan.entry == Sanitize(entryLabel)
    ensures |plan.skip| == |plan.needed| == |plan.labels| == |code|
    ensures forall i :: 0 <= i < |code| ==> (plan.skip[i] <==> Skipped(code, i))
    ensures forall t :: 0 <= t < |code| ==> (plan.needed[t] <==> Needed(code, t))
    ensures forall i :: 0 <= i < |code| ==> plan.labels[i] == LabelAt(plan.needed, plan.entry, i)
  {
    var entry := SanitizeLabel(entryLabel);
    var n := |code|;
    if n == 0 {
      return LabelPlan(entry, [], [], []);
    }
    var skip := MarkSkipped(code);
    var needed := MarkNeeded(code, skip);
    var labels := NameLabels(needed, entry);
    plan := LabelPlan(entry, skip, needed, labels);
  }

  /** The first loop: a `jmp` to the next instruction is marked to be skipped. */
  method MarkSkipped(code: seq<Instr>) returns (skip: seq<bool>)
    ensures |skip| == |code| && forall i :: 0 <= i < |code| ==> (skip[i] <==> Skipped(code, i))
  {
    var a := new bool[|code|](_ => false);
    for i := 0 to |code|
      invariant forall k :: 0 <= k < i ==> (a[k] <==> Skipped(code, k))
      invariant forall k :: i <= k < |code| ==> !a[k]
    {
      var isJmp := EqualsIgnoreCase(Some(code[i].mnemonic), Some("jmp"));
      if isJmp && |code[i].operands| == 1 {
        var target := ParseIndexOperand(Some(code[i].operands[0]));
        if target == Some(i + 1) {
          a[i] := true;
        }
      }
    }
    skip := a[..];
  }

  /** The second loop: the target of every jump that is printed needs a label. */
  method MarkNeeded(code: seq<Instr>, skip: seq<bool>) returns (needed: seq<bool>)
    requires |skip| == |code| && forall i :: 0 <= i < |code| ==> (skip[i] <==> Skipped(code, i))
    ensures |needed| == |code| && forall t :: 0 <= t < |code| ==> (needed[t] <==> Needed(code, t))
  {
    var a := new bool[|code|](_ => false);
    for i := 0 to |code|
      invariant forall t :: 0 <= t < |code| ==> (a[t] <==> exists k :: 0 <= k < i && JumpsTo(code, k, t))
    {
      ghost var before := a[..];
      if !skip[i] && IsJumpMnemonic(code[i].mnemonic) && |code[i].operands| > 0 {
        var target := ParseIndexOperand(Some(code[i].operands[0]));
        if target.Some? && 0 <= target.value < |code| {
          a[target.value] := true;
        }
      }
      MarkStep(code, a[..], before, i);
    }
    needed := a[..];
  }

  /** The second loop's invariant carried over instruction `i`. */
  lemma MarkStep(code: seq<Instr>, now: seq<bool>, before: seq<bool>, i: nat)
    requires i < |code| == |now| == |before|
    requires forall t :: 0 <= t < |code| ==> (before[t] <==> exists k :: 0 <= k < i && JumpsTo(code, k, t))
    requires forall t :: 0 <= t < |code| ==> (now[t] <==> before[t] || JumpsTo(code, i, t))
    ensures forall t :: 0 <= t < |code| ==> (now[t] <==> exists k :: 0 <= k < i + 1 && JumpsTo(code, k, t))
  {
  }

  /** The third loop: the entry label at 0, then L1, L2, ... at the other targets in index order. */
  method NameLabels(needed: seq<bool>, entry: string) returns (labels: seq<Option<string>>)
    requires |needed| > 0
    ensures |labels| == |needed| && forall i :: 0 <= i < |needed| ==> labels[i] == LabelAt(needed, entry, i)
  {
    var a := new Option<string>[|needed|](_ => None);
    a[0] := Some(entry);
    var counter := 1;
    for i := 0 to |needed|
      invariant a[0] == Some(entry) && counter == CountNeeded(needed, i) + 1
      invariant forall k :: 0 < k < i ==> a[k] == LabelAt(needed, entry, k)
      invariant forall k :: i <= k < |needed| && k != 0 ==> a[k] == None
    {
      CountNeededStep(needed, i);
      if needed[i] && i != 0 && a[i].None? {
        a[i] := Some("L" + FormatInt(counter));
        counter := counter + 1;
      }
    }
    labels := a[..];
  }

  /** The counter after instruction `i`: one more exactly when `i` is a target other than 0. */
  lemma CountNeededStep(needed: seq<bool>, i: nat)
    requires i < |needed|
    ensures CountNeeded(needed, i + 1) == CountNeeded(needed, i) + (if needed[i] && i != 0 then 1 else 0)
  {
  }

  // ---------------------------------------------------------------------------
  // Properties of the label table

  /**
   * Instruction 0 always carries the entry label, and any other instruction
   * carries a label exactly when a printed jump goes to it: every jump the
   * listing shows can name its target, and no label is left unused.
   */
  lemma LabelsAtTargets(code: seq<Instr>, entry: string, t: nat)
    requires t < |code|
    ensures t == 0 ==> LabelAt(NeededFlags(code), entry, t) == Some(entry)
    ensures t > 0 ==> (LabelAt(NeededFlags(code), entry, t).Some? <==> exists i :: 0 <= i < |code| && JumpsTo(code, i, t))
  {
  }

  lemma {:induction false} CountNeededMonotone(needed: seq<bool>, i: nat, j: nat)
    requires i <= j <= |needed|
    ensures CountNeeded(needed, i) <= CountNeeded(needed, j)
    decreases j - i
  {
    if i < j {
      CountNeededMonotone(needed, i, j - 1);
    }
  }

  /**
   * Labels other than the entry label are numbered in increasing index order,
   * so no two instructions get the same one.
   */
  lemma LabelsIncrease(needed: seq<bool>, entry: string, i: nat, j: nat)
    requires 0 < i < j < |needed| && needed[i] && needed[j]
    ensures CountNeeded(needed, i) < CountNeeded(needed, j)
    ensures LabelAt(needed, entry, i) != LabelAt(needed, entry, j)
  {
    assert CountNeeded(needed, i + 1) == CountNeeded(needed, i) + 1;
    CountNeededMonotone(needed, i + 1, j);
    GeneratedNamesDiffer(CountNeeded(needed, i) + 1, CountNeeded(needed, j) + 1);
  }

  /** Generated label names with different numbers differ. */
  lemma GeneratedNamesDiffer(a: nat, b: nat)
    requires a != b
    ensures "L" + FormatInt(a) != "L" + FormatInt(b)
  {
    if "L" + FormatInt(a) == "L" + FormatInt(b) {
      assert ("L" + FormatInt(a))[1..] == FormatInt(a);
      assert ("L" + FormatInt(b))[1..] == FormatInt(b);
      FormatIntInjective(a, b);
    }
  }

  /** The first target after instruction 0 is L1. */
  lemma FirstLabel(needed: seq<bool>, entry: string, j: nat)
    requires 0 < j < |needed| && needed[j] && forall i :: 0 < i < j ==> !needed[i]
    ensures LabelAt(needed, entry, j) == Some("L1")
  {
    assert CountNeeded(needed, j) == 0 by {
      CountNoneBefore(needed, j);
    }
    assert FormatInt(1) == NatToString(1) == "1";
    assert "L" + "1" == "L1";
  }

  lemma {:induction false} CountNoneBefore(needed: seq<bool>, j: nat)
    requires j <= |needed| && forall i :: 0 < i < j ==> !needed[i]
    ensures CountNeeded(needed, j) == 0
  {
    if j > 1 {
      CountNoneBefore(needed, j - 1);
    }
  }

  /**
   * Across the two stages: in the image `toAsmModule` makes from a node list
   * ending with Exit (and small enough for C's `int`), every jump is either a
   * `jmp` to the next instruction, which the listing drops, or is printed
   * with the label of its target.
   */
  lemma GeneratedJumpsLabelled(paramTypes: seq<Option<string>>, localTypes: seq<Option<string>>, names: seq<string>,
                               nodes: seq<CfgNode>, entry: string, j: nat)
    requires |nodes| > 0 && nodes[|nodes| - 1].kind == Exit
    requires |Translate(paramTypes, localTypes, names, nodes).instructions| <= IntMax
    requires j < |Translate(paramTypes, localTypes, names, nodes).instructions|
    requires IsJumpMnemonic(Translate(paramTypes, localTypes, names, nodes).instructions[j].mnemonic)
    ensures var code := Translate(paramTypes, localTypes, names, nodes).instructions;
      Skipped(code, j) || exists t :: JumpsTo(code, j, t) && LabelAt(NeededFlags(code), entry, t).Some?
  {
    var code := Translate(paramTypes, localTypes, names, nodes).instructions;
    JumpOperandsInRange(paramTypes, localTypes, names, nodes);
    var t: nat :| t < |code| && code[j].operands == [FormatInt(t)];
    ParseIndexOperandFormatInt(t);
    if !Skipped(code, j) {
      assert JumpsTo(code, j, t);
      LabelsAtTargets(code, entry, t);
    }
  }
}
