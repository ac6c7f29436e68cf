# A verified model of the compiler core: operator trees, control-flow graphs, backpatching code generation

This project models the middle of a small compiler for a Pascal-like teaching
language. It starts from a labelled syntax tree that an external parser
produces:

1. **Operator-tree normaliser** (`op_tree.c`). Expression subtrees become
   operator trees. Wrapper labels (`EXPRESSION`, `CONDITION`, `UNTIL`,
   `IN_BRACES`, `VALUE`, `ARRAY_ELEMENT_INDEX`) are unwrapped. Each binary node
   is rotated towards left-associative form within its associativity class.
   The module also renders a tree as text.
2. **Declarations and CFG builder** (`cfg_builder_module.c`).
   - A method declaration becomes a subprogram record: name, parameters and
     their types, return type, and locals declaration by declaration.
   - The statement block becomes a control-flow graph: an Entry node, basic
     blocks, If, While and RepeatCondition nodes, and an Exit node.
   - The builder threads a frontier of pending edges through the statements.
     It resolves a pending edge by filling the source node's
     `nextConditional` slot (True edges) or its `nextDefault` slot (all other
     kinds).
3. **Backpatching code generator** (`to_asm_module.c`).
   - The subprogram record becomes a data area (one size per variable) and a
     stack-machine instruction list.
   - The first pass emits every node's code in node order. Each jump gets a
     placeholder operand and a pending patch.
   - The second pass overwrites every placeholder with the start index of the
     target node.
   - The listing printer's label plan marks which jumps it drops, which
     instructions need a label, and what each label is called.
4. **Output file name** (`main.c`): the clean file name derived from an input
   path.

Modelling choices:

- **Values.** Syntax trees, operator trees and subprogram records are
  datatypes. Strings are `seq<char>`, one `char` per byte of the C string,
  which is exact for ASCII text. An absent C pointer is `None`.
- **Classes.** The two stateful objects of the source are classes whose methods
  update fields. `CfgBuilder.ControlFlowGraph` is the graph being built. It
  holds the node arena, the edge list and the id counter. `Codegen.Emitter` is
  the code generator context, holding the instruction list and the pending
  patches.
- **Methods against specifications.** Every loop of the source that updates
  state step by step is a method with a loop and invariants. The child loops
  that only collect operands while building an operator tree
  (`buildOpNodeWithChildren`, `buildCallOp`) are recursive functions, as the
  rest of that pure module is. Each such method is proved equal to a recursive
  specification function (for example `BuildSpec`, `EmitNodes`, `PatchAll`,
  `Sanitize`, `CleanFilename`). The properties the design promises are proved
  about those functions.
- **CFG node references.** The C code refers to nodes by pointer. The model
  uses the node's index in the graph's node list, which is the order the nodes
  were created in.

The properties proved include the following.

- **Normaliser**
  - Rotation keeps the in-order reading of a tree.
  - One run of the rotation loop turns a right-nested chain of one class into
    the left-nested chain.
  - As written, the normaliser rotates only at the root of each new node, so a
    chain of four or more operands can stay partly right-nested (see
    Findings). The corrected normaliser `NormaliseTree` also rotates every node
    it moves down. It leaves no node that can be rotated, and it turns every
    chain of one class into the left-nested chain with the same reading.
  - Only a childless wrapper or a unary operation with fewer than two
    children yields no tree.
- **CFG builder**
  - Entry is node 0 and Exit is the last node.
  - Exit is bare: no statements and no successors.
  - Ids increase along the node list.
  - For well-shaped statements, every node before Exit has a successor.
  - The layouts of If, While and Repeat nodes are proved. Each construct
    resolves the edges it receives into its first node.
  - The exits of a WHILE's body return to the While node. A REPEAT's body exits
    reach its last RepeatCondition node, and there is one such node per UNTIL.
  - After an IF, both edges of the If node are set or still pending, provided
    no THEN has a BREAK of its own.
  - A BREAK never fills a conditional slot. `IF (x) THEN BREAK ELSE` leaves
    the If node without a conditional successor.
- **Code generator**
  - Expression code contains no jumps.
  - Each node's code sits at its recorded start.
  - Starts increase with the node index.
  - Every jump instruction of the image has one operand: the decimal index of
    an instruction inside the image.
  - The data area has one size of 1, 4 or 8 bytes per variable.
  - Jumps transfer control to the successors the CFG records.
- **Label plan**
  - A label is planned exactly at the targets of printed jumps.
  - Labels other than the entry label are distinct and numbered in order.
  - Every jump of a generated image is either dropped or printed with a
    labelled target.
- **File names**
  - A clean name has no separator, dot or reserved character.
  - Cleaning is idempotent.

Where the design description and the code differ, the model follows the code:

- A method whose BODY has no `BLOCK`, or an empty one, gets no control-flow
  graph at all, and code generation then yields no image.
- The statement block is the `BLOCK` child of the `BODY` child of the method
  declaration. Nothing searches deeper for it.
- An If node carries one statement per `CONDITION` child, not just one.
- An If node with both branches does not always end with two successors. A
  BREAK relabels the pending True edge as a Break edge, and a Break edge fills
  `nextDefault` (`CfgRouting.ThenBreakLeavesOneSlot`). The node that BREAK
  once created is disabled in the code, so the model keeps the relabelling.
- The graph builder stores the trees of the normaliser as written,
  `BuildOpTree`. A chain of four or more operands of one class can therefore
  stay partly right-nested in the graph and in the generated code (see
  Findings). The corrected normaliser `NormaliseTree` stands beside it with
  its own proofs.
- A construct with a second THEN or ELSE child, or a second REPEATABLE_PART,
  overwrites the exits of the earlier one, which are then never linked
  anywhere. Only for constructs with exactly one THEN, at most one ELSE and
  exactly one REPEATABLE_PART does every node before Exit get a successor
  (`CfgSpec.WellShaped`, `CfgTheorems.BuildConnected`).
- Inside a WHILE body, the exits of a `break` are linked back to the While node
  like every other body exit (`CfgTheorems.WhileLayout`). So a `break` never
  leaves a while loop.
- The entry label is not checked against the generated names `L1`, `L2`, ….
  An entry label spelled `L1` can therefore coincide with a generated label;
  `ImagePrinter.LabelsIncrease` proves the generated ones distinct among
  themselves only.

## Model

| member | source | states |
|---|---|---|
| Text.Lower | to_asm_module.c:146-161 | `tolower` in the C locale: only ASCII capitals change, and into lower-case letters |
| Text.LowerString | to_asm_module.c:146-161 | the lower-cased string has the same length and is lowered character by character |
| Text.StrtolWhole | to_asm_module.c:276-318 | `strtol` that must consume the whole text: the empty text reads as 0; a digit string reads as its value, and with a leading `-` or `+` as its negation or its value; every other text is rejected |
| Text.FormatInt | to_asm_module.c:139-144 | `%d` formatting: a non-empty run of decimal digits, with a leading `-` exactly for negative values |
| Text.FormatIntRoundTrip | to_asm_module.c:139-144 | reading back what `%d` wrote gives the number again |
| Text.FormatIntInjective | to_asm_module.c:139-144 | different numbers format differently, so decimal operands and label numbers are unambiguous |
| Syntax.CountLabelPositive | cfg_builder_module.c:258-272 | a node has a child with a given label exactly when the count of such children is positive |
| OpTree.IsSameAssociativeGroup | op_tree.c:108-137 | two kinds may be re-associated exactly when the left one is binary and both are in the same of the six classes |
| OpTree.SameGroupSymmetric | op_tree.c:108-137 | the class test is symmetric |
| OpTree.SameGroupReflexiveOnBinary | op_tree.c:108-137 | a kind is in its own group exactly when it is one of the thirteen binary kinds |
| OpTree.Rotate | op_tree.c:154-158 | one rotation `A(x, B(m, y))` to `B(A(x, m), y)` keeps the in-order reading and shortens the right spine |
| OpTree.LeftAssociate | op_tree.c:139-163 | the rotation loop keeps the in-order reading and the operand count, leaves a root that cannot be rotated further, and returns a node without two operands as it is |
| OpTree.LeftAssociateBinary | op_tree.c:139-163 | the in-place loop returns NULL for NULL and otherwise exactly the rotated tree |
| OpTree.LeftAssociateMixed | op_tree.c:139-163 | a binary node of one class whose left side is a left chain and whose right side is a right chain of that class becomes a left chain |
| OpTree.RightChainBecomesLeftChain | op_tree.c:139-163 | one run of the rotation loop turns a right-nested chain of one class whose left operands are leaves into the left-nested chain with the same in-order reading |
| OpTree.LeftAssociateAll | op_tree.c:139-163 | the rotation loop with each moved-down node rotated as well keeps the in-order reading and leaves a root that cannot be rotated |
| OpTree.LeftAssociateAllSettled | op_tree.c:139-163 | over settled operands, that loop leaves no node anywhere that can be rotated |
| OpTree.LeftAssociateAllPure | op_tree.c:139-163 | that loop keeps a chain of one class a chain of that class |
| OpTree.SettledChainIsLeftChain | op_tree.c:139-163 | a chain of one class in which no node can be rotated is the left-nested chain |
| OpTree.Associate | op_tree.c:335-375 | either rotation keeps the in-order reading and leaves a root that cannot be rotated |
| OpTree.IsWrapperToken | op_tree.c:165-173 | the six wrapper labels (`EXPRESSION`, `CONDITION`, `UNTIL`, `IN_BRACES`, `VALUE`, `ARRAY_ELEMENT_INDEX`) whose first child stands for them; WrapperIgnoresLaterChildren states what that means for the tree |
| OpTree.GetIdentifierName | op_tree.c:190-201 | an identifier's name is the text of its first child, or its own text when it has none |
| OpTree.BuildOpNodeWithChildren | op_tree.c:175-188 | a node of the given kind, without text, with one operand per child |
| OpTree.BuildUnaryOp | op_tree.c:232-254 | no tree exactly when there are fewer than two children; otherwise one operand, no text, and a unary kind, or Unknown for an unrecognised operator token |
| OpTree.BuildCallOp | op_tree.c:256-288 | a call node whose name is present exactly when there is a first child; no arguments without a second child, one argument when the second child is not `ARGUMENTS` |
| OpTree.BuildTree | op_tree.c:309-398 | the label dispatch of `buildOpTree` with the rotation as a parameter; BuildFailsOnlyOn, BuildRootSettled, BinaryKeepsReadingOrder and WrapperIgnoresLaterChildren state its properties |
| OpTree.BuildOpTree | op_tree.c:309-398 | `buildOpTree` as written, rotating each new binary node at its root only; the graph builder stores its trees; FourOperandChainExample shows the chain it leaves partly right-nested |
| OpTree.NormaliseTree | op_tree.c:309-398 | the corrected normaliser of the Findings row; NormaliseSettled and NormaliseChain state its properties |
| OpTree.BinaryKindOf | op_tree.c:335-375 | the thirteen binary labels map to binary kinds |
| OpTree.BuildOperands | op_tree.c:175-188 | one normalised operand per child, in child order |
| OpTree.BuildRootSettled | op_tree.c:309-398 | under either rotation, the root of every normalised tree cannot be rotated further |
| OpTree.NonBinaryRoot | op_tree.c:309-398 | a root not built from a binary label is of a non-binary kind and cannot be rotated |
| OpTree.NormaliseSettled | op_tree.c:309-398 | with the corrected rotation, no node of a normalised tree can be rotated |
| OpTree.ChainBuildsPure | op_tree.c:335-375 | a syntax chain of one class becomes an operator chain of that class |
| OpTree.NormaliseChain | op_tree.c:335-375 | with the corrected rotation, every syntax chain of one class, however nested, becomes the left-nested chain, read in the same order as the normaliser as written reads it |
| OpTree.ChainSameReading | op_tree.c:335-375 | both rotations give a syntax chain the same in-order reading |
| OpTree.BinaryNode | op_tree.c:335-375 | a binary label becomes the rotated node over its normalised children |
| OpTree.FourOperandChainExample | op_tree.c:139-163 | as written, `10 - (3 - (2 - 1))` becomes `(10 - (3 - 2)) - 1`, which is neither left-nested nor free of rotatable nodes |
| OpTree.FourOperandChainNormalised | op_tree.c:139-163 | the corrected normaliser makes the same chain `((10 - 3) - 2) - 1` |
| OpTree.BuildFailsOnlyOn | op_tree.c:232-254 | under either rotation, the normaliser yields no tree exactly for a childless wrapper, or below a chain of wrappers a unary operation with fewer than two children |
| OpTree.WrapperIgnoresLaterChildren | op_tree.c:317-322 | a wrapper is transparent: only its first child matters |
| OpTree.BinaryKeepsReadingOrder | op_tree.c:335-375 | a two-child binary node reads, in order, as its normalised left child, the operator, its normalised right child |
| OpTree.SubtractPair | op_tree.c:338-340 | a SUBTRACT node is the rotated subtraction of its two normalised children |
| OpTree.SubtractionChainExample | op_tree.c:338-340 | `10 - (3 - 2)` as nested by the grammar is normalised to `(10 - 3) - 2` |
| OpTreeText.OpTypeName | op_tree.c:203-230 | the printed name of each operator kind; OpTypeNameInjective proves that no two kinds share a name |
| OpTreeText.Render | op_tree.c:490-513 | the text of a tree: the type name, `:text` when the text is non-empty, and the parenthesised operands separated by `, `; `<null>` for an absent tree. OpTreeToStringRec and OpTreeToString prove the string-builder code produces it |
| OpTreeText.OpTypeNameInjective | op_tree.c:203-230 | different kinds are printed under different names |
| OpTreeText.OpTreeToStringRec | op_tree.c:490-513 | appending a tree appends exactly its rendering: the type name, `:text` for a non-empty text, then the operands in parentheses separated by `, `; NULL prints as `<null>` |
| OpTreeText.AppendOperands | op_tree.c:502-511 | the operand loop appends `(`, the rendered operands separated by `, `, and `)` |
| OpTreeText.OpTreeToString | op_tree.c:515-524 | the string is the rendering: `<null>` for NULL, otherwise it starts with the type name |
| CfgGraph.ArenaIdsIncrease | cfg_builder_module.c:430-443 | node ids strictly increase along the node list |
| CfgGraph.ResolveOne | cfg_builder_module.c:595-607 | resolving one pending edge keeps the node count |
| CfgGraph.ResolveAll | cfg_builder_module.c:595-607 | resolving a frontier keeps the node count |
| CfgGraph.ResolveAllEffect | cfg_builder_module.c:595-607 | resolution keeps ids, kinds and statements; `nextConditional` becomes the target exactly when a True edge leaves the node, and `nextDefault` exactly when an edge of another kind does |
| CfgGraph.ResolveAllSummary | cfg_builder_module.c:595-607 | every source of a resolved frontier ends with a successor, and nodes outside it are untouched |
| CfgGraph.ResolveAllAppend | cfg_builder_module.c:531-548 | appending a node the frontier does not leave from commutes with resolution |
| CfgGraph.ResolveAllResolves | cfg_builder_module.c:595-607 | after resolution every edge of the frontier has the target in the slot of its sort: True edges in `nextConditional`, others in `nextDefault` |
| CfgGraph.BreakFlow | cfg_builder_module.c:874-902 | BREAK relabels every pending edge as a Break edge from the same source and passes it on unresolved |
| CfgGraph.BreakResolvesIntoDefault | cfg_builder_module.c:874-902 | a frontier that went through a BREAK never fills a `nextConditional` slot; each of its sources gets `nextDefault` |
| CfgSpec.Processable | cfg_builder_module.c:471-583 | the statement shapes the builder handles: recognised labels, an IF with a THEN, a REPEAT with a REPEATABLE_PART and an UNTIL; ProcessStatement requires it |
| CfgSpec.WellShaped | cfg_builder_module.c:587-871 | the shapes for which no exits are overwritten: exactly one THEN and at most one ELSE per IF, exactly one REPEATABLE_PART per REPEAT; BuildConnected requires it |
| CfgSpec.Conditions | cfg_builder_module.c:621-628 | one condition tree per CONDITION child |
| CfgSpec.LastLabelled | cfg_builder_module.c:771-871 | the last UNTIL child is found exactly when there is one, and carries that label |
| CfgSpec.Stmt | cfg_builder_module.c:471-583 | processing a statement only adds nodes, and its exits leave existing nodes |
| CfgSpec.SeqStmt | cfg_builder_module.c:505-519 | a container threads the frontier through its children in order; nodes are only added |
| CfgSpec.SimpleStmt | cfg_builder_module.c:520-570 | an ASSIGN or EXPRESSION joins the single pending basic block, or opens a new one that receives the frontier; nodes are only added |
| CfgSpec.IfLoop | cfg_builder_module.c:616-663 | the IF routine's child loop only adds nodes, and both branch frontiers leave existing nodes |
| CfgSpec.IfStmt | cfg_builder_module.c:587-683 | an IF adds at least its own node, and its exits leave existing nodes |
| CfgSpec.WhileLoop | cfg_builder_module.c:686-768 | the WHILE routine's child loop only adds nodes |
| CfgSpec.WhileStmt | cfg_builder_module.c:686-768 | a WHILE adds at least its own node, and its exits leave existing nodes |
| CfgSpec.RepeatParts | cfg_builder_module.c:771-871 | the REPEAT routine's first loop only adds nodes |
| CfgSpec.RepeatUntils | cfg_builder_module.c:771-871 | the REPEAT routine's second loop only adds nodes |
| CfgSpec.AddUntil | cfg_builder_module.c:771-871 | one UNTIL adds exactly one RepeatCondition node |
| CfgSpec.RepeatStmt | cfg_builder_module.c:771-871 | a REPEAT adds at least its body block, and its exits leave existing nodes |
| CfgSpec.BuildSpec | cfg_builder_module.c:943-997 | a built graph has at least Entry and Exit |
| CfgProofs.StmtStep | cfg_builder_module.c:471-583 | each statement is one step: nodes are only appended, only pending sources change, the new nodes point only among themselves, and for well-shaped statements none is left without a successor except through the exits |
| CfgProofs.IfStep | cfg_builder_module.c:587-683 | an IF statement is one such step |
| CfgProofs.WhileStep | cfg_builder_module.c:686-768 | a WHILE statement is one such step |
| CfgProofs.RepeatStep | cfg_builder_module.c:771-871 | a REPEAT statement is one such step |
| CfgProofs.SimpleStep | cfg_builder_module.c:520-570 | an ASSIGN or EXPRESSION statement is one such step |
| CfgBuilder.ControlFlowGraph.constructor | cfg_builder_module.c:945-953 | a new graph is empty and satisfies the arena invariant, with the id counter at the first id |
| CfgBuilder.ControlFlowGraph.CreateNode | cfg_builder_module.c:430-443 | a new node with the next id and empty slots is appended, and the counter advances |
| CfgBuilder.ControlFlowGraph.AppendStatement | cfg_builder_module.c:551-554 | one operator tree is appended to one node's statements |
| CfgBuilder.ControlFlowGraph.Resolve | cfg_builder_module.c:595-607 | the frontier's edges are resolved into the target in order and recorded |
| CfgBuilder.ControlFlowGraph.ProcessStatement | cfg_builder_module.c:471-583 | the graph and exits after a statement are those the statement specification gives |
| CfgBuilder.ControlFlowGraph.ProcessSequence | cfg_builder_module.c:505-519 | the same for BLOCK, THEN, ELSE, DO and REPEATABLE_PART |
| CfgBuilder.ControlFlowGraph.ProcessSimple | cfg_builder_module.c:520-570 | the same for ASSIGN and EXPRESSION |
| CfgBuilder.ControlFlowGraph.ProcessIf | cfg_builder_module.c:587-683 | the same for IF |
| CfgBuilder.ControlFlowGraph.ProcessWhile | cfg_builder_module.c:686-768 | the same for WHILE |
| CfgBuilder.ControlFlowGraph.ProcessRepeat | cfg_builder_module.c:771-871 | the same for REPEAT |
| CfgBuilder.ControlFlowGraph.ProcessRepeatParts | cfg_builder_module.c:800-818 | the loop over the REPEATABLE_PART children leaves the graph and the body's exits the REPEAT part specification describes |
| CfgBuilder.ControlFlowGraph.ProcessUntils | cfg_builder_module.c:822-868 | the loop over the UNTIL children leaves the graph and the single FALSE exit the UNTIL specification describes |
| CfgBuilder.ControlFlowGraph.AddUntilNode | cfg_builder_module.c:831-860 | appends one REPEAT_CONDITION node holding the condition, links every body exit into it and adds its TRUE edge back to the body block |
| CfgBuilder.BuildCfg | cfg_builder_module.c:943-997 | the graph is the specified one; Entry is node 0 and Exit the last node; Exit has no statements and no successor; the counter advanced by the node count; for a well-shaped block every node before Exit has a successor; the graph is well formed (ids in order, every successor and pending edge inside the node list) |
| CfgTheorems.BuildFacts | cfg_builder_module.c:943-997 | the built arena is valid, Entry has a successor, Exit is last and bare, and no other node is Entry or Exit |
| CfgTheorems.CloseWithExit | cfg_builder_module.c:971-983 | appending Exit and resolving the remaining frontier into it gives every pending source a successor |
| CfgTheorems.BuildShape | cfg_builder_module.c:943-997 | ids increase from the first id; Entry is first with a successor; Exit is last with no statements and no successors; no other node is Entry or Exit |
| CfgTheorems.BuildConnected | cfg_builder_module.c:943-997 | with exactly one THEN, at most one ELSE and exactly one REPEATABLE_PART per construct, every node before Exit has a successor |
| CfgTheorems.IfLayout | cfg_builder_module.c:587-683 | the If node gets the next id and the condition trees in order; every incoming edge is resolved into it; all exits leave the construct's nodes; without ELSE, the If node's False edge is the last exit |
| CfgTheorems.WhileLayout | cfg_builder_module.c:686-768 | the While node gets the next id and the condition trees; every incoming edge is resolved into it; every exit of the last DO body, a BREAK's included, is resolved back into the While node; the only exit is its False edge; with a DO it has a successor; well-shaped bodies leave no dead end |
| CfgTheorems.RepeatLayout | cfg_builder_module.c:771-871 | a REPEAT is a body block with the next id that receives every incoming edge, followed after the body by exactly one RepeatCondition node per UNTIL, each looping back to the body on True; the body's exits are resolved into the last of them, whose False edge is the only exit |
| CfgRouting.AddStatementKeepsResolved | cfg_builder_module.c:551-554 | appending a statement leaves every resolved edge resolved |
| CfgRouting.OpenResolves | cfg_builder_module.c:595-607 | opening a construct resolves every incoming edge into its new node |
| CfgRouting.ConstructResolvesIncoming | cfg_builder_module.c:587-871 | after an IF, WHILE or REPEAT, every edge it received still has the construct's first node as successor |
| CfgRouting.IfResolvesIncoming | cfg_builder_module.c:595-607 | the same for an IF |
| CfgRouting.WhileResolvesIncoming | cfg_builder_module.c:695-708 | the same for a WHILE |
| CfgRouting.RepeatResolvesIncoming | cfg_builder_module.c:780-793 | the same for a REPEAT |
| CfgRouting.WhileLoopsBack | cfg_builder_module.c:730-752 | after any number of children, every exit of the last DO body is resolved into the While node, an empty DO's True edge included |
| CfgRouting.AddUntilNodes | cfg_builder_module.c:826-865 | one UNTIL resolves the body's exits into one new RepeatCondition node that holds the condition and has the body block as conditional successor |
| CfgRouting.RepeatUntilsShape | cfg_builder_module.c:822-868 | after any number of children, there is one RepeatCondition node per UNTIL, each looping back to the body block, and the body's exits go to the newest |
| CfgRouting.UntilStepShape | cfg_builder_module.c:826-865 | one UNTIL keeps the earlier RepeatCondition nodes and takes the body's exits |
| CfgRouting.RepeatRouting | cfg_builder_module.c:771-871 | the whole REPEAT: incoming edges into the body block, one RepeatCondition per UNTIL, body exits into the last |
| CfgRouting.SlotKeptGrows | cfg_builder_module.c:471-583 | a set slot stays set while the graph grows |
| CfgRouting.StmtKeepsSlot | cfg_builder_module.c:471-583 | every edge a statement receives is resolved into the slot of its sort or handed on as an edge of that sort; only a BREAK of the statement's own can divert a True edge |
| CfgRouting.SimpleKeepsSlot | cfg_builder_module.c:520-570 | the same for ASSIGN and EXPRESSION |
| CfgRouting.SeqKeepsSlot | cfg_builder_module.c:505-519 | the same for a statement sequence |
| CfgRouting.IfSlotsLoop | cfg_builder_module.c:617-659 | along the IF's child loop, the If node's True edge is set or pending once a THEN was seen, and its False edge once an ELSE was seen |
| CfgRouting.IfBranchSlots | cfg_builder_module.c:631-658 | one THEN or ELSE keeps that property |
| CfgRouting.IfTwoSlots | cfg_builder_module.c:587-683 | after an IF whose THEN parts have no BREAK of their own, the If node's True edge and its False edge are each set or still pending with their sort |
| CfgRouting.ThenBreakLeavesOneSlot | cfg_builder_module.c:874-902 | in the graph of `IF (x) THEN BREAK ELSE`, the If node ends without a conditional successor, with Exit as its default one |
| CfgRouting.ThenBreakIf | cfg_builder_module.c:587-683 | that IF hands on its True edge relabelled as a Break edge, then its False edge, and sets neither slot |
| CfgRouting.BreakOnly | cfg_builder_module.c:874-902 | a THEN holding only BREAK relabels its True edge as a Break edge |
| Declarations.FirstLabelled | cfg_builder_module.c:258-272 | the position found is the first child with the label, and there is none exactly when no child has it |
| Declarations.ChildByTextFound | cfg_builder_module.c:258-272 | a child is found exactly when one carries the label, and what is found carries it |
| Declarations.FindChildByText | cfg_builder_module.c:258-272 | the search loop returns the first child with the label |
| Declarations.LabelsNonEmpty | cfg_builder_module.c:230-248 | the collected labels are all non-empty |
| Declarations.ExtendEmpty | cfg_builder_module.c:230-248 | appending non-empty labels to an empty builder joins them with single spaces |
| Declarations.FlattenTreeTextRec | cfg_builder_module.c:230-248 | the recursion appends the node's non-empty labels in pre-order, with a space before each except into an empty builder |
| Declarations.FlattenTreeText | cfg_builder_module.c:250-256 | the result is the pre-order non-empty labels joined by single spaces |
| Declarations.SplitJoin | cfg_builder_module.c:230-256 | labels without spaces are recovered from the flattened text |
| Declarations.TypeText | cfg_builder_module.c:274-285 | `void` for a `VOID_VALUE` node, otherwise the node's labels joined by single spaces; SplitJoin states how those labels are recovered |
| Declarations.IdText | cfg_builder_module.c:287-294 | a name is the text of the ID node's first child, or its own text when it has none |
| Declarations.ExtractTypeText | cfg_builder_module.c:274-285 | `void` for VOID_VALUE, otherwise the flattened text |
| Declarations.ParamNames | cfg_builder_module.c:326-331 | one name per parameter, taken from its ID child |
| Declarations.ParamTypes | cfg_builder_module.c:332-336 | one type per parameter, absent unless the TYPE child has a child |
| Declarations.IdTexts | cfg_builder_module.c:287-294 | one name per variable node, in order |
| Declarations.Copies | cfg_builder_module.c:376 | the declaration's type repeated once per variable |
| Declarations.FlattenAt | cfg_builder_module.c:354-385 | variable `j` of declaration `d` sits right after all variables of the earlier declarations |
| Declarations.LocalsAligned | cfg_builder_module.c:373-377 | there is one local type per local name |
| Declarations.FillSubprogramInfo | cfg_builder_module.c:310-395 | name, parameters, return type and locals as specified; a graph exactly when the BODY has a non-empty BLOCK, and then the graph built from it |
| Declarations.FillBody | cfg_builder_module.c:346-393 | the locals of the VAR_DECLARATIONS child, and a graph exactly for a non-empty BLOCK |
| Declarations.FindTypeText | cfg_builder_module.c:332-336 | the type lookup under a TYPE or RETURN_TYPE child |
| Declarations.FillParams | cfg_builder_module.c:316-339 | the parameter loop fills exactly the specified names and types |
| Declarations.CollectLocals | cfg_builder_module.c:349-386 | the declaration loop yields the locals declaration by declaration |
| Declarations.AppendDeclaration | cfg_builder_module.c:356-384 | one declaration appends its variables' names and its type once per variable |
| Declarations.AppendVariables | cfg_builder_module.c:364-379 | the variable loop appends each name with its own copy of the type |
| Declarations.FindMethodDeclaration | cfg_builder_module.c:925-938 | what the search returns is a METHOD_DECL |
| Declarations.FindMethodOnSpine | cfg_builder_module.c:925-938 | the search finds the first METHOD_DECL on the chain of first children, and nothing when that chain has none |
| Declarations.GenerateSubprogramInfo | cfg_builder_module.c:999-1018 | no record exactly when no METHOD_DECL is found; otherwise the filled record tagged with the source file |
| AsmText.EqualsIgnoreCase | to_asm_module.c:146-161 | true exactly when both texts are present and equal after lower-casing |
| AsmText.SameIgnoringCaseLowerWord | to_asm_module.c:146-161 | a text matches a lower-case word exactly when it lower-cases to that word |
| AsmText.TypeSizeBytes | to_asm_module.c:224-244 | 1 byte exactly for bool/byte/char, 8 exactly for long/ulong, 4 otherwise (also for no type), ignoring case |
| AsmText.TypeSizeIgnoresCase | to_asm_module.c:224-244 | type texts differing only in case have the same size |
| AsmText.VarIndex | to_asm_module.c:246-259 | the first position of the name, or -1 exactly when it is absent or NULL |
| AsmText.FindVarIndex | to_asm_module.c:246-259 | the linear search returns that first position |
| AsmText.BinaryValueBound | to_asm_module.c:261-274 | `k` binary digits hold a value below 2^k |
| AsmText.ParseBinaryLiteral | to_asm_module.c:261-274 | succeeds exactly on binary digits and then gives their value |
| AsmText.ParseIntLiteral | to_asm_module.c:276-318 | rejects NULL and empty text and character or string literals; `true` is 1 and `false` 0; a `0x` literal of hex digits is their value; a `0b` literal parses exactly when binary digits follow, to their value; decimal digits, with or without a leading `-`, give their value |
| AsmText.ParseIntLiteralFormatInt | to_asm_module.c:276-318 | every `%d` text parses back to its number |
| AsmText.ParseIndexOperand | to_asm_module.c:163-181 | accepted operands lie in 0..INT_MAX, and the empty text reads as 0 |
| AsmText.ParseIndexOperandFormatInt | to_asm_module.c:163-181 | the decimal text of an index in range reads back as itself |
| AsmText.RawLabel | to_asm_module.c:190-222 | the name to sanitise is never empty (`entry` for NULL or empty) |
| AsmText.LabelChars | to_asm_module.c:190-222 | ASCII letters, digits and `_` are kept and every other character (one per byte of an ASCII name) becomes `_` |
| AsmText.Sanitize | to_asm_module.c:190-222 | the label starts with a letter and holds only letters, digits and `_`; `M_` is prefixed when the name does not start with a letter |
| AsmText.SanitizeIdempotent | to_asm_module.c:190-222 | sanitising a sanitised label changes nothing |
| AsmText.SanitizeLabel | to_asm_module.c:190-222 | the buffer loop produces the sanitised label |
| CodegenSpec.Compile | to_asm_module.c:399-533 | the postfix code of an expression and whether it leaves a value; nothing for a NULL node. CompilePlain proves that it holds no jump, and Codegen.Emitter.EmitExpression that the emitter appends exactly this code |
| CodegenSpec.CompileNode | to_asm_module.c:406-531 | the per-kind cases of `emit_expression`; CompilePlain states its property |
| CodegenSpec.LiteralCode | to_asm_module.c:406-431 | `pushb 1` and `pushb 0` for `true` and `false`, `pushi` of the value ParseIntLiteral reads, `pushi 0` when it reads none |
| CodegenSpec.Fold | to_asm_module.c:333-346 | nothing without operands, otherwise the first operand then each later operand followed by the operator; Codegen.Emitter.EmitBinaryLeftFold proves the loop equal to it |
| CodegenSpec.CallCode | to_asm_module.c:348-397 | `out`, `in` and `setport` as the source special-cases them, and the popped arguments of any other call; Codegen.Emitter.EmitFunctionCall proves the emitter equal to it |
| CodegenSpec.Sequence | to_asm_module.c:515-531 | `pushi 0` without operands, otherwise every operand with all values but the last popped; Codegen.Emitter.EmitSequence proves the emitter equal to it |
| CodegenSpec.StatementCode | to_asm_module.c:535-550 | an assignment's code, or an expression's code followed by `pop` when it leaves a value; StatementPlain proves that it holds no jump |
| CodegenSpec.NodeBody | to_asm_module.c:583-611 | `halt` for Exit, the condition code of a decision node, the statement code of any other node; NodeBodyPlain proves that it holds no jump |
| CodegenSpec.NodeJumps | to_asm_module.c:583-617 | the jumps after a node's body; ConditionTransfer and PlainTransfer state where control goes, and NodeJumpsAreJumps that they are jump mnemonics |
| CodegenSpec.Translate | to_asm_module.c:744-808 | the image of a subprogram with a graph: one size per parameter then per local, and the emitted code with every jump patched; TranslatedCode and JumpOperandsInRange state its properties |
| CodegenSpec.JumpCode | to_asm_module.c:562-571 | one jump instruction per jump, with the placeholder operand `0` |
| CodegenSpec.JumpPatches | to_asm_module.c:562-571 | one patch per jump, on operand 0 of its instruction, naming its target |
| CodegenSpec.EmitNodesStep | to_asm_module.c:777-781 | emitting one more node appends its code, records its start at the current length, and appends its patches |
| CodegenSpec.EmitNodes | to_asm_module.c:777-781 | there is one start per node, and every patch points into the emitted code |
| CodegenSpec.ApplyPatch | to_asm_module.c:783-795 | a patch keeps the code length |
| CodegenSpec.PatchAll | to_asm_module.c:783-795 | patching keeps the code length |
| CodegenSpec.DataItems | to_asm_module.c:756-770 | one data item per variable, holding its type size |
| Codegen.Emitter.constructor | to_asm_module.c:750-754 | a new context has the variable table, no code and no patches |
| Codegen.Emitter.Add | to_asm_module.c:69-86 | the instruction is appended and its index returned |
| Codegen.Emitter.EmitExpression | to_asm_module.c:399-533 | appends exactly the expression's code and reports whether it leaves a value; no patch is added |
| Codegen.Emitter.EmitAssignment | to_asm_module.c:442-462 | appends exactly `CompileNode`'s code for an assignment (the value, then `stg` of the variable's slot or `pop`), adding no patch |
| Codegen.Emitter.EmitUnary | to_asm_module.c:489-512 | appends exactly `CompileNode`'s code for a unary plus, unary minus or logical not and reports whether it leaves a value, adding no patch |
| Codegen.Emitter.EmitBinaryLeftFold | to_asm_module.c:333-346 | appends the left-to-right fold: operand 0, then each further operand followed by the operator |
| Codegen.Emitter.EmitFunctionCall | to_asm_module.c:348-397 | appends the call's code: `out` per argument, `in`, `setport`, or the arguments with their values discarded |
| Codegen.Emitter.EmitSequence | to_asm_module.c:515-531 | array-index and unknown nodes: all children evaluated, leftover values popped except the last; `pushi 0` when childless |
| Codegen.Emitter.EmitStatement | to_asm_module.c:535-550 | appends a statement's code, which leaves no value |
| Codegen.Emitter.EmitJump | to_asm_module.c:562-571 | appends a jump with placeholder `0` and records a patch for it |
| Codegen.Emitter.EmitNode | to_asm_module.c:573-617 | appends the node's body and jump code, and one patch per jump at its position |
| Codegen.Emitter.EmitNodeBody | to_asm_module.c:583-610 | `halt` for Exit, the conditions for a decision node, the statements otherwise |
| Codegen.Emitter.EmitCondition | to_asm_module.c:588-594 | every condition value except the last is popped |
| Codegen.Emitter.EmitStatements | to_asm_module.c:608-610 | the statements in order |
| Codegen.Emitter.EmitJumps | to_asm_module.c:596-616 | the node's jumps with their patches |
| Codegen.ToAsmModule | to_asm_module.c:744-808 | no image exactly when there is no graph; otherwise the specified image over the parameters and locals |
| Codegen.AppendSizes | to_asm_module.c:761-770 | the data loop appends one type size per variable |
| Codegen.EmitAll | to_asm_module.c:777-781 | the first pass produces the specified code, patches and starts |
| Codegen.EmitEntry | to_asm_module.c:778-780 | one pass step: record the start, then emit the node |
| Codegen.PatchJumps | to_asm_module.c:783-795 | the second pass produces the specified patched code |
| CodegenProofs.PlainIsNoJump | to_asm_module.c:183-188 | no mnemonic the expression code uses is a jump mnemonic |
| CodegenProofs.NodeJumpsAreJumps | to_asm_module.c:596-616 | the jumps a node emits are jump mnemonics |
| CodegenProofs.CompilePlain | to_asm_module.c:399-533 | expression code contains no jump |
| CodegenProofs.StatementPlain | to_asm_module.c:535-550 | statement code contains no jump |
| CodegenProofs.NodeBodyPlain | to_asm_module.c:583-610 | a node's body contains no jump |
| CodegenProofs.EmitLayout | to_asm_module.c:777-781 | each node's code sits in the emitted code at its recorded start, the first start is 0, and no nodes mean no code |
| CodegenProofs.StartsOrdered | to_asm_module.c:777-781 | starts increase with the node index |
| CodegenProofs.TargetsInRange | to_asm_module.c:552-560 | when the last node is Exit, every target's start (0 if not found) lies inside the code |
| CodegenProofs.EmitPatchedJumps | to_asm_module.c:562-617 | patches are ordered by instruction, each sits on a one-operand jump, and every jump has a patch |
| CodegenProofs.PatchAllEffect | to_asm_module.c:783-795 | each patched instruction gets the decimal start of its target as its operand, and unpatched instructions are unchanged |
| CodegenProofs.TranslatedCode | to_asm_module.c:744-808 | the image's code is the emitted code with every jump's operand replaced by its target's start |
| CodegenProofs.JumpOperandsInRange | to_asm_module.c:783-795 | when the last node is Exit, every jump of the image has one operand, the decimal index of an instruction inside the image |
| CodegenProofs.BuiltJumpsInRange | to_asm_module.c:744-808 | the same for every graph the builder produces |
| CodegenProofs.ConditionTransfer | to_asm_module.c:596-603 | a decision node continues to `nextDefault` on a zero condition, and on a non-zero one to `nextConditional` when set, else `nextDefault` |
| CodegenProofs.PlainTransfer | to_asm_module.c:612-616 | another node continues to `nextDefault`, else `nextConditional`; Exit does not continue |
| CodegenProofs.DataLayout | to_asm_module.c:756-770 | one data item per parameter then local, each the size of its type, always 1, 4 or 8 bytes |
| CodegenProofs.SizeChoices | to_asm_module.c:224-244 | every type size is 1, 4 or 8 |
| ImagePrinter.NeededFlags | to_asm_module.c:671-683 | one flag per instruction, set exactly at the targets of printed jumps |
| ImagePrinter.CountNeeded | to_asm_module.c:685-701 | the number of needed indices before `i` (index 0 excluded) is below `i` |
| ImagePrinter.PlanLabels | to_asm_module.c:630-701 | the sanitised entry label; skip flags exactly at `jmp` instructions to the next index; needed flags exactly at targets of printed jumps; labels as numbered |
| ImagePrinter.MarkSkipped | to_asm_module.c:659-669 | skip flags exactly at single-operand `jmp` instructions (in any case) to the next index |
| ImagePrinter.MarkNeeded | to_asm_module.c:671-683 | needed flags exactly at in-range targets of jumps that are not skipped |
| ImagePrinter.NameLabels | to_asm_module.c:685-701 | index 0 gets the entry label, and the other needed indices `L1`, `L2`, … in index order |
| ImagePrinter.LabelsAtTargets | to_asm_module.c:671-701 | index 0 carries the entry label; any other index carries a label exactly when a printed jump goes to it |
| ImagePrinter.LabelsIncrease | to_asm_module.c:685-701 | generated label numbers increase with the index, so no two instructions share a generated label |
| ImagePrinter.FirstLabel | to_asm_module.c:685-701 | the first target after index 0 is `L1` |
| ImagePrinter.GeneratedJumpsLabelled | to_asm_module.c:659-701 | in a generated image, every jump is either a dropped `jmp` to the next instruction or is printed with a labelled target |
| FileNames.LastIndexOf | main.c:22 | the index of the last occurrence, or none exactly when the character does not occur |
| FileNames.LastSeparator | main.c:22-27 | the later of the last `\` and the last `/`, or none when the path has neither |
| FileNames.BaseName | main.c:29-31 | the part of the path after its last separator, itself separator-free |
| FileNames.StripExtension | main.c:36-40 | the name up to its last `.`, or the whole name when it has none |
| FileNames.CleanFilename | main.c:17-52 | the stripped base name with every reserved character replaced by `_`; CleanFilenameSafe, SafeNameFixed, CleanFilenameIdempotent and CleanFilenameOfBaseName state its properties |
| FileNames.GetCleanFilename | main.c:17-52 | the replacement loop produces the clean name |
| FileNames.BaseNameIdempotent | main.c:29-31 | a base name has no directory left to remove |
| FileNames.CleanFilenameOfBaseName | main.c:17-52 | only the last path component counts: the clean name of a path is the clean name of its base name |
| FileNames.CleanFilenameSafe | main.c:42-49 | no separator, dot or other reserved character remains |
| FileNames.SafeNameFixed | main.c:17-52 | a name without reserved characters is its own clean name |
| FileNames.CleanFilenameIdempotent | main.c:17-52 | cleaning a clean name changes nothing |

## Left out

- Output is not modelled: printing, DOT export, the final `fprintf` calls of the listing, and the driver's directory and file handling. Errors raised by `malloc`, `calloc` and `strdup` are not modelled either, including the listing printer's fallback when its arrays cannot be allocated.
- Capacities are not modelled. The CFG arena's fixed 100 slots and the growth of the C arrays are replaced by unbounded sequences.
- `strtol` is modelled without leading whitespace, without a `0x` prefix after an explicit base 16, and without overflow or `long` to `int` truncation. Integers are unbounded.
- AsmText.ParseBinaryLiteral: does not model the `int` overflow of shifting more than 31 digits.
- The image is assumed to hold at most `INT_MAX` instructions. `ImagePrinter.GeneratedJumpsLabelled` requires it, because the source formats instruction indices as `int`.
- Aliasing of edges is not modelled. With several UNTIL children the source re-targets the same edge objects, so edge records already stored change. The model's edge list keeps value copies.
- `skipUselessTokens` is not part of this model, and neither is the parser that builds the syntax tree.
- The static node-id counter shared between graphs becomes a `firstId` parameter of the builder.
- The string builders of the source (`StringBuilder`, `sbAppend`) are modelled as immutable strings.
- C strings are modelled without NUL characters.
- AsmText.LabelChars, AsmText.Sanitize: a C string is a byte string, and the model reads one `char` per byte, so only ASCII names are modelled exactly. `sanitize_label` tests `isalnum` byte by byte in the C locale, so it writes one `_` per byte of a multi-byte UTF-8 character, where the model writes one `_` per character.
- The code generator identifies a node by its index in the node list, not by pointer. `find_node_start` thus becomes a lookup by index.
- CfgSpec.Stmt, CfgSpec.IfStmt, CfgSpec.WhileStmt, CfgSpec.RepeatStmt, CfgSpec.BuildSpec: their own contracts state only growth facts. What the source promises about the graph is stated by the CfgProofs and CfgTheorems lemmas about them.
- CfgBuilder.ControlFlowGraph.ProcessStatement: the builder requires recognised statement labels, an IF with a THEN, and a REPEAT with a REPEATABLE_PART and an UNTIL. An unrecognised label makes the C function fall off its end, which is undefined behaviour.
- Declarations.FillSubprogramInfo: every parameter node must have an ID child, because the source dereferences it unchecked.
- OpTree.RightChainBecomesLeftChain: states one run of the rotation loop on a chain whose left operands are leaves. As written, the normaliser does not make every longer chain left-nested (see Findings); OpTree.NormaliseChain states that for the corrected normaliser.
- OpTree.BuildRootSettled: with the rotation as written, only the root is settled. OpTree.NormaliseSettled covers every node for the corrected rotation.
- CfgTheorems.IfLayout: does not state the order of the exits beyond the last one. The exits of the last THEN come before those of the last ELSE, which would only restate how the builder concatenates them.
- CfgTheorems.WhileLayout: states the loop back for the exits of the last DO only. When an earlier DO is empty, a later DO may re-target the edge that the earlier one had set.
- CfgTheorems.RepeatLayout: with several UNTIL children, the False edges of the earlier RepeatCondition nodes are not routed anywhere; only the last one's False edge leaves the REPEAT.
- CfgRouting.IfTwoSlots: its requirement that no THEN has a BREAK of its own is stronger than needed. The source loses the True slot only when a BREAK runs before the THEN's first node-creating statement. The property covers the IF alone: a BREAK after the IF can still relabel a pending True edge, for example after an empty THEN.

## Findings

| source | as written | input that shows it | evidently intended | confidence | as-written member | corrected member |
|---|---|---|---|---|---|---|
| op_tree.c:139-163 | the rotation loop moves the left operand down into a new node but never rotates that node, and the normaliser runs it only at the root of each node | `10 - (3 - (2 - 1))` becomes `(10 - (3 - 2)) - 1`, still right-nested inside | every chain of one associativity class becomes the left-nested chain `((10 - 3) - 2) - 1` | not executed | OpTree.FourOperandChainExample | OpTree.NormaliseChain |
